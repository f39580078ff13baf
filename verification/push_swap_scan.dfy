// The list walks of push_swap: minimum and maximum searches
// (push_swap/srcs/utils_4.c, push_swap/srcs/utils_5.c) and the passes that
// write index, med, target, cost and cheap (push_swap/srcs/sorting_3.c).

module PushSwapScan {
  import opened Collections
  import opened Limits
  import opened PushSwapList
  import opened PushSwapOrder

  method IsSorted(list: Stack) returns (sorted: bool)
    requires list.Valid() && list.nodes != []
    ensures sorted <==> NonDescending(list.vals)
  {
    var stack := list.head;
    ghost var i := 0;
    ghost var s := list.vals;
    while stack.next != null
      invariant 0 <= i < |list.nodes| && stack == list.nodes[i]
      invariant forall j, k :: 0 <= j < k <= i ==> s[j] <= s[k]
      decreases |list.nodes| - i
    {
      if stack.next.data < stack.data {
        assert list.vals[i + 1] < list.vals[i];
        return false;
      }
      assert s[i] <= s[i + 1];
      stack := stack.next;
      i := i + 1;
    }
    sorted := true;
  }

  /** The loop condition `stack_len(*stack_a) > 3 && !is_sorted(*stack_a)`. */
  method Unfinished(list: Stack) returns (more: bool)
    requires list.Valid()
    ensures more <==> |list.nodes| > 3 && !NonDescending(list.vals)
  {
    var len := list.Len();
    more := false;
    if len > 3 {
      var sorted := IsSorted(list);
      more := !sorted;
    }
  }

  method FindSmallest(list: Stack) returns (keep: int)
    requires list.Valid() && list.nodes != []
    ensures IsMin(keep, list.vals)
  {
    var tmp := list.head;
    keep := tmp.data;
    ghost var i := 0;
    ghost var s := list.vals;
    while tmp.next != null
      invariant 0 <= i < |list.nodes| && tmp == list.nodes[i]
      invariant keep in s && forall j :: 0 <= j <= i ==> keep <= s[j]
      decreases |list.nodes| - i
    {
      if tmp.next.data < keep {
        keep := tmp.next.data;
        assert keep == s[i + 1];
      }
      tmp := tmp.next;
      i := i + 1;
    }
  }

  method FindBiggest(list: Stack) returns (keep: int)
    requires list.Valid() && list.nodes != []
    ensures IsMax(keep, list.vals)
  {
    var tmp := list.head;
    keep := tmp.data;
    ghost var i := 0;
    ghost var s := list.vals;
    while tmp.next != null
      invariant 0 <= i < |list.nodes| && tmp == list.nodes[i]
      invariant keep in s && forall j :: 0 <= j <= i ==> s[j] <= keep
      decreases |list.nodes| - i
    {
      if tmp.next.data > keep {
        keep := tmp.next.data;
        assert keep == s[i + 1];
      }
      tmp := tmp.next;
      i := i + 1;
    }
  }

  method GetSmallest(list: Stack) returns (ret: Node?)
    requires list.Valid()
    ensures ret == null <==> list.nodes == []
    ensures ret != null ==> ret in list.nodes && IsMin(ret.data, list.vals)
  {
    if list.head == null {
      return null;
    }
    ret := null;
    var stack, min := list.head, LONG_MAX;
    ghost var i := 0;
    ghost var s := list.vals;
    while stack != null
      invariant 0 <= i <= |list.nodes| && stack == At(list.nodes, i)
      invariant if ret == null then i == 0 && min == LONG_MAX else ret in list.nodes && ret.data == min && min in s
      invariant forall j :: 0 <= j < i ==> min <= s[j]
      decreases |list.nodes| - i
    {
      assert stack.data == s[i];
      if stack.data < min {
        min := stack.data;
        ret := stack;
      }
      stack := stack.next;
      i := i + 1;
    }
  }

  method GetBiggest(list: Stack) returns (ret: Node?)
    requires list.Valid()
    ensures ret == null <==> list.nodes == []
    ensures ret != null ==> ret in list.nodes && IsMax(ret.data, list.vals)
  {
    if list.head == null {
      return null;
    }
    ret := null;
    var stack, max := list.head, LONG_MIN;
    ghost var i := 0;
    ghost var s := list.vals;
    while stack != null
      invariant 0 <= i <= |list.nodes| && stack == At(list.nodes, i)
      invariant if ret == null then i == 0 && max == LONG_MIN else ret in list.nodes && ret.data == max && max in s
      invariant forall j :: 0 <= j < i ==> s[j] <= max
      decreases |list.nodes| - i
    {
      assert stack.data == s[i];
      if stack.data > max {
        max := stack.data;
        ret := stack;
      }
      stack := stack.next;
      i := i + 1;
    }
  }

  /** What set_index leaves behind: positions, and med on the upper half. */
  ghost predicate Indexed(nodes: seq<Node>)
    reads nodes`index, nodes`med
  {
    forall i {:trigger nodes[i].index} {:trigger nodes[i].med} :: 0 <= i < |nodes| ==>
      nodes[i].index == i && nodes[i].med == (i < |nodes| / 2)
  }

  method SetIndex(list: Stack)
    requires list.Valid()
    modifies list.nodes`index, list.nodes`med
    ensures Indexed(list.nodes)
  {
    var tmp, i := list.head, 0;
    var len := list.Len();
    var median := len / 2;
    while tmp != null
      invariant 0 <= i <= |list.nodes| && tmp == At(list.nodes, i)
      invariant forall j {:trigger list.nodes[j]} :: 0 <= j < i ==>
        list.nodes[j].index == j && list.nodes[j].med == (j < median)
      decreases |list.nodes| - i
    {
      tmp.index := i;
      if i < median {
        tmp.med := true;
      } else {
        tmp.med := false;
      }
      tmp := tmp.next;
      i := i + 1;
    }
  }

  /** The inner loop of set_target_a for one node of A with value v. */
  method FindPredecessor(v: int32, b: Stack) returns (target: Node?)
    requires b.Valid() && b.nodes != []
    ensures target != null && target in b.nodes
    ensures IsPredecessor(target.data, v, b.vals)
    ensures if exists y :: y in b.vals && y < v
      then target.data < v && forall y :: y in b.vals && y < v ==> y <= target.data
      else forall y :: y in b.vals ==> y <= target.data
  {
    var best, tmpb := LONG_MIN, b.head;
    target := null;
    ghost var i, s := 0, b.vals;
    ValsInRange(b.nodes, s);
    while tmpb != null
      invariant 0 <= i <= |b.nodes| && tmpb == At(b.nodes, i)
      invariant best != LONG_MIN ==> target != null && target in b.nodes && target.data == best && best in s && best < v
      invariant forall j :: 0 <= j < i && s[j] < v ==> s[j] <= best
      decreases |b.nodes| - i
    {
      assert tmpb.data == s[i];
      if tmpb.data < v && tmpb.data > best {
        best := tmpb.data;
        target := tmpb;
      }
      tmpb := tmpb.next;
      i := i + 1;
    }
    if best == LONG_MIN {
      target := GetBiggest(b);
    }
  }

  /** The inner loop of set_target_b for one node of B with value v. */
  method FindSuccessor(v: int32, a: Stack) returns (target: Node?)
    requires a.Valid() && a.nodes != []
    ensures target != null && target in a.nodes
    ensures IsSuccessor(target.data, v, a.vals)
    ensures if exists y :: y in a.vals && y > v
      then target.data > v && forall y :: y in a.vals && y > v ==> target.data <= y
      else forall y :: y in a.vals ==> target.data <= y
  {
    var best, tmpa := LONG_MAX, a.head;
    target := null;
    ghost var i, s := 0, a.vals;
    ValsInRange(a.nodes, s);
    while tmpa != null
      invariant 0 <= i <= |a.nodes| && tmpa == At(a.nodes, i)
      invariant best != LONG_MAX ==> target != null && target in a.nodes && target.data == best && best in s && best > v
      invariant forall j :: 0 <= j < i && s[j] > v ==> best <= s[j]
      decreases |a.nodes| - i
    {
      assert tmpa.data == s[i];
      if tmpa.data > v && tmpa.data < best {
        best := tmpa.data;
        target := tmpa;
      }
      tmpa := tmpa.next;
      i := i + 1;
    }
    if best == LONG_MAX {
      target := GetSmallest(a);
    }
  }

  /** Every node of a aims at the node of b holding its cyclic predecessor. */
  ghost predicate AimedDown(a: seq<Node>, b: seq<Node>, vals: seq<int>)
    reads a`target, a`data, b`data
  {
    forall i {:trigger a[i].target} :: 0 <= i < |a| ==>
      a[i].target != null && a[i].target in b && IsPredecessor(a[i].target.data, a[i].data, vals)
  }

  /** Every node of b aims at the node of a holding its cyclic successor. */
  ghost predicate AimedUp(b: seq<Node>, a: seq<Node>, vals: seq<int>)
    reads b`target, b`data, a`data
  {
    forall i {:trigger b[i].target} :: 0 <= i < |b| ==>
      b[i].target != null && b[i].target in a && IsSuccessor(b[i].target.data, b[i].data, vals)
  }

  method SetTargetA(a: Stack, b: Stack)
    requires a.Valid() && b.Valid() && b.nodes != []
    modifies a.nodes`target
    ensures AimedDown(a.nodes, b.nodes, b.vals)
  {
    var tmpa := a.head;
    ghost var i, s := 0, b.vals;
    while tmpa != null
      invariant 0 <= i <= |a.nodes| && tmpa == At(a.nodes, i)
      invariant forall j {:trigger a.nodes[j]} :: 0 <= j < i ==>
        a.nodes[j].target != null && a.nodes[j].target in b.nodes &&
        IsPredecessor(a.nodes[j].target.data, a.nodes[j].data, s)
      decreases |a.nodes| - i
    {
      var target := FindPredecessor(tmpa.data, b);
      tmpa.target := target;
      tmpa := tmpa.next;
      i := i + 1;
    }
  }

  method SetTargetB(a: Stack, b: Stack)
    requires a.Valid() && b.Valid() && a.nodes != []
    modifies b.nodes`target
    ensures AimedUp(b.nodes, a.nodes, a.vals)
  {
    var tmpb := b.head;
    ghost var i, s := 0, a.vals;
    while tmpb != null
      invariant 0 <= i <= |b.nodes| && tmpb == At(b.nodes, i)
      invariant forall j {:trigger b.nodes[j]} :: 0 <= j < i ==>
        b.nodes[j].target != null && b.nodes[j].target in a.nodes &&
        IsSuccessor(b.nodes[j].target.data, b.nodes[j].data, s)
      decreases |b.nodes| - i
    {
      var target := FindSuccessor(tmpb.data, a);
      tmpb.target := target;
      tmpb := tmpb.next;
      i := i + 1;
    }
  }

  /** Rotations that bring position i of a list of n nodes on top, in the direction med chooses. */
  function Distance(i: nat, n: nat): (d: nat)
    requires i < n
  {
    if i < n / 2 then i else n - i
  }

  /** cost is the sum of the two distances, as Indexed and AimedDown lists make it. */
  ghost predicate Priced(a: seq<Node>, b: seq<Node>)
    reads a`target, a`cost, b`index
  {
    forall i {:trigger a[i].cost} :: 0 <= i < |a| ==>
      a[i].target != null && a[i].target in b && 0 <= a[i].target.index < |b| &&
      a[i].cost == Distance(i, |a|) + Distance(a[i].target.index, |b|)
  }

  lemma IndexIsPosition(nodes: seq<Node>, n: Node)
    requires Indexed(nodes) && n in nodes
    ensures 0 <= n.index < |nodes| && nodes[n.index] == n && n.med == (n.index < |nodes| / 2)
  {
    var k :| 0 <= k < |nodes| && nodes[k] == n;
    assert nodes[k].index == k;
  }

  /** The loop body of get_cost_a. */
  method PriceNode(tmpa: Node, lena: nat, lenb: nat)
    requires tmpa.target != null && 0 <= tmpa.index < lena && 0 <= tmpa.target.index < lenb
    requires tmpa.med == (tmpa.index < lena / 2)
    requires tmpa.target.med == (tmpa.target.index < lenb / 2)
    modifies tmpa`cost
    ensures tmpa.cost == Distance(tmpa.index, lena) + Distance(tmpa.target.index, lenb)
  {
    tmpa.cost := tmpa.index;
    if !tmpa.med {
      tmpa.cost := lena - tmpa.index;
    }
    if tmpa.target.med {
      tmpa.cost := tmpa.cost + tmpa.target.index;
    } else {
      tmpa.cost := tmpa.cost + (lenb - tmpa.target.index);
    }
  }

  /** What the walk finds at node i of A: its own place and that of its target. */
  lemma TargetPlace(a: seq<Node>, b: seq<Node>, vals: seq<int>, i: nat)
    requires Indexed(a) && Indexed(b) && AimedDown(a, b, vals) && i < |a|
    ensures a[i].index == i && a[i].med == (i < |a| / 2)
    ensures a[i].target != null && a[i].target in b && 0 <= a[i].target.index < |b|
    ensures a[i].target.med == (a[i].target.index < |b| / 2)
  {
    assert a[i].index == i;
    IndexIsPosition(b, a[i].target);
  }

  /** The nodes before i have their cost. */
  ghost predicate PricedTo(a: seq<Node>, b: seq<Node>, i: nat)
    reads a`target, a`cost, b`index
  {
    forall j {:trigger a[j].cost} :: 0 <= j < i && j < |a| ==>
      a[j].target != null && a[j].target in b && 0 <= a[j].target.index < |b| &&
      a[j].cost == Distance(j, |a|) + Distance(a[j].target.index, |b|)
  }

  method PriceAt(a: Stack, b: Stack, tmpa: Node, lena: nat, lenb: nat, ghost i: nat)
    requires Distinct(a.nodes) && Indexed(a.nodes) && Indexed(b.nodes) && AimedDown(a.nodes, b.nodes, b.vals)
    requires i < |a.nodes| == lena && tmpa == a.nodes[i] && |b.nodes| == lenb
    requires PricedTo(a.nodes, b.nodes, i)
    modifies tmpa`cost
    ensures PricedTo(a.nodes, b.nodes, i + 1)
  {
    TargetPlace(a.nodes, b.nodes, b.vals, i);
    hide Indexed, AimedDown, Distance;
    PriceNode(tmpa, lena, lenb);
  }

  method GetCostA(a: Stack, b: Stack)
    requires a.Valid() && b.Valid() && Indexed(a.nodes) && Indexed(b.nodes)
    requires AimedDown(a.nodes, b.nodes, b.vals)
    modifies a.nodes`cost
    ensures Priced(a.nodes, b.nodes)
  {
    hide Holds, IsPredecessor;
    var lena := a.Len();
    var lenb := b.Len();
    var tmpa := a.head;
    ghost var i := 0;
    while tmpa != null
      invariant 0 <= i <= |a.nodes| && tmpa == At(a.nodes, i)
      invariant PricedTo(a.nodes, b.nodes, i)
      decreases |a.nodes| - i
    {
      hide Indexed, AimedDown, PricedTo;
      PriceAt(a, b, tmpa, lena, lenb, i);
      tmpa := tmpa.next;
      i := i + 1;
    }
  }

  ghost predicate Cheapest(nodes: seq<Node>, k: nat)
    reads nodes`cost
  {
    k < |nodes| && forall j :: 0 <= j < |nodes| ==> nodes[k].cost <= nodes[j].cost
  }

  ghost predicate FirstLeast(nodes: seq<Node>, k: nat)
    reads nodes`cost
  {
    Cheapest(nodes, k) && forall j :: 0 <= j < k ==> nodes[k].cost < nodes[j].cost
  }

  /** Flags the first node of least cost and touches no other flag. */
  method SetCheapest(list: Stack) returns (ghost k: nat)
    requires list.Valid() && list.nodes != []
    requires forall i :: 0 <= i < |list.nodes| ==> list.nodes[i].cost < LONG_MAX
    modifies list.nodes`cheap
    ensures k < |list.nodes| && FirstLeast(list.nodes, k) && list.nodes[k].cheap
    ensures forall j :: 0 <= j < |list.nodes| && j != k ==> list.nodes[j].cheap == old(list.nodes[j].cheap)
  {
    var tmp, cheapest := list.head, LONG_MAX;
    var cheapLink: Node? := null;
    ghost var i := 0;
    k := 0;
    while tmp != null
      invariant 0 <= i <= |list.nodes| && tmp == At(list.nodes, i)
      invariant if cheapLink == null then i == 0 && cheapest == LONG_MAX
                else k < |list.nodes| && cheapLink == list.nodes[k] && cheapest == cheapLink.cost
      invariant forall j :: 0 <= j < i ==> cheapest <= list.nodes[j].cost
      invariant cheapLink != null ==> forall j :: 0 <= j < k ==> cheapest < list.nodes[j].cost
      decreases |list.nodes| - i
    {
      if tmp.cost < cheapest {
        cheapest := tmp.cost;
        cheapLink := tmp;
        k := i;
      }
      tmp := tmp.next;
      i := i + 1;
    }
    cheapLink.cheap := true;
  }

  /** The first flagged node, or null. */
  method GetCheapest(list: Stack) returns (tmp: Node?, ghost k: nat)
    requires list.Valid()
    ensures tmp == At(list.nodes, k) && k <= |list.nodes|
    ensures tmp != null ==> tmp.cheap
    ensures forall j :: 0 <= j < k ==> !list.nodes[j].cheap
  {
    tmp, k := list.head, 0;
    while tmp != null
      invariant 0 <= k <= |list.nodes| && tmp == At(list.nodes, k)
      invariant forall j :: 0 <= j < k ==> !list.nodes[j].cheap
      decreases |list.nodes| - k
    {
      if tmp.cheap {
        break;
      }
      tmp := tmp.next;
      k := k + 1;
    }
  }
}
