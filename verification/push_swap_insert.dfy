// step_two and the whole algorithm for more than five values
// (push_swap/srcs/sorting_2.c:15-34 and 65-76).

module PushSwapInsert {
  import opened Collections
  import opened Limits
  import opened PushSwapList
  import opened PushSwapInstr
  import opened PushSwapOrder
  import opened PushSwapScan
  import opened PushSwapSorter
  import opened PushSwapRotate
  import opened PushSwapRound
  import opened PushSwapTrace
  import opened PushSwapBig

  /** Four times the instructions that grow A from the empty list to m values. */
  function InsertBound(m: nat): nat {
    if m == 0 then 0 else InsertBound(m - 1) + 2 * m + 4
  }

  lemma {:induction false} InsertBoundIsSquare(m: nat)
    ensures InsertBound(m) == m * m + 5 * m
  {
    if m > 0 {
      InsertBoundIsSquare(m - 1);
      assert m * m == (m - 1) * (m - 1) + 2 * m - 1;
    }
  }

  lemma SuccessorInRot(t: int, v: int, s: seq<int>, k: nat)
    requires k < |s| && IsSuccessor(s[k], v, s)
    ensures IsSuccessor(Rot(s, k)[0], v, Rot(s, k))
  {
    var r := Rot(s, k);
    RotAt(s, k, 0);
    assert s == s[..k] + s[k..];
    assert forall x :: x in r <==> x in s;
  }

  /** The top of B with its target, read off the lists. */
  lemma TopTarget(a: Stack, b: Stack) returns (k: nat)
    requires a.Valid() && b.Valid() && b.nodes != [] && AimedUp(b.nodes, a.nodes, a.vals) && Indexed(a.nodes)
    ensures b.head == b.nodes[0] && b.nodes[0].target != null
    ensures k < |a.nodes| && a.nodes[k] == b.nodes[0].target
    ensures a.nodes[k].med == (k < |a.nodes| / 2)
    ensures IsSuccessor(a.vals[k], b.vals[0], a.vals)
  {
    assert b.nodes[0].target in a.nodes;
    k :| 0 <= k < |a.nodes| && a.nodes[k] == b.nodes[0].target;
    assert a.nodes[k].data == a.vals[k] && b.nodes[0].data == b.vals[0];
    assert a.nodes[k].index == k;
  }

  method AimAll(s: Sorter)
    requires s.Valid() && s.a.nodes != []
    modifies s.pool`index, s.pool`med, s.pool`target
    ensures s.Valid() && Indexed(s.a.nodes) && AimedUp(s.b.nodes, s.a.nodes, s.a.vals)
  {
    hide Linked, Holds, Disjoint, Indexed, AimedUp;
    SetIndexBoth(s);
    SetTargetB(s.a, s.b);
  }

  /** One iteration of step_two: the top of B goes onto its cyclic successor in A. */
  method StepTwoRound(s: Sorter) returns (ghost k: nat)
    requires s.Ready() && Simple(s.start)
    requires s.a.nodes != [] && s.b.nodes != [] && Cyclic(s.a.vals)
    modifies s`out, s.a, s.b, s.pool`next, s.pool`prev, s.pool`index, s.pool`med, s.pool`target
    ensures s.Ready() && Cyclic(s.a.vals)
    ensures k < |old(s.a.vals)| && IsSuccessor(old(s.a.vals)[k], old(s.b.vals)[0], old(s.a.vals))
    ensures s.a.vals == [old(s.b.vals)[0]] + Rot(old(s.a.vals), k) && s.b.vals == old(s.b.vals)[1..]
    ensures |s.a.nodes| == old(|s.a.nodes|) + 1 && |s.b.nodes| == old(|s.b.nodes|) - 1
    ensures |s.out| == old(|s.out|) + Turns(k < old(|s.a.nodes|) / 2, k, old(|s.a.nodes|)) + 1
    ensures 2 * (|s.out| - old(|s.out|)) <= old(|s.a.nodes|) + 3
  {
    hide Exec, Linked, Holds, Disjoint, Rot, Distinct, Simple, Cyclic, IsSuccessor, Turns, Indexed, AimedUp;
    ExecDistinct(s.out, s.start);
    AimAll(s);
    k := TopTarget(s.a, s.b);
    ghost var a, v := s.a.vals, s.b.vals[0];
    TurnsBound(k, |a|);
    SuccessorInRot(a[k], v, a, k);
    RotKeepsCyclic(a, k);
    assert v in s.b.vals;
    RotContains(a, k, v);
    InsertKeepsCyclic(Rot(a, k), v);
    RotateSolo(s, s.a, s.b.head.target, 'a', k);
    s.PaPb(s.b, s.a, 'a');
  }

  lemma RotContains(s: seq<int>, k: nat, v: int)
    requires k <= |s|
    ensures v in Rot(s, k) <==> v in s
  {
    assert s == s[..k] + s[k..];
  }

  method StepTwo(s: Sorter)
    requires s.Ready() && Simple(s.start) && s.a.nodes != [] && Cyclic(s.a.vals)
    modifies s`out, s.a, s.b, s.pool`next, s.pool`prev, s.pool`index, s.pool`med, s.pool`target
    ensures s.Ready() && s.b.nodes == [] && Cyclic(s.a.vals) && Indexed(s.a.nodes)
    ensures |s.a.nodes| == old(|s.a.nodes| + |s.b.nodes|)
    ensures 4 * (|s.out| - old(|s.out|)) <= InsertBound(|s.a.nodes|) - InsertBound(old(|s.a.nodes|))
  {
    hide Exec, Linked, Holds, Disjoint, Rot, Simple, Cyclic, IsSuccessor, Indexed;
    ghost var p, printed := |s.a.nodes|, |s.out|;
    while s.b.head != null
      invariant s.Ready() && s.a.nodes != [] && Cyclic(s.a.vals)
      invariant |s.a.nodes| + |s.b.nodes| == old(|s.a.nodes| + |s.b.nodes|)
      invariant 4 * (|s.out| - printed) <= InsertBound(|s.a.nodes|) - InsertBound(p)
      decreases |s.b.nodes|
    {
      ghost var k := StepTwoRound(s);
    }
    SetIndex(s.a);
  }

  /** The smallest node with its place. */
  lemma SmallestPlace(a: Stack, n: Node) returns (k: nat)
    requires a.Valid() && Indexed(a.nodes) && n in a.nodes && IsMin(n.data, a.vals)
    ensures k < |a.nodes| && a.nodes[k] == n && n.med == (k < |a.nodes| / 2) && IsMin(a.vals[k], a.vals)
  {
    k :| 0 <= k < |a.nodes| && a.nodes[k] == n;
    assert a.nodes[k].data == a.vals[k] && a.nodes[k].index == k;
  }

  lemma MinInRot(s: seq<int>, k: nat)
    requires k < |s| && IsMin(s[k], s)
    ensures IsMin(Rot(s, k)[0], Rot(s, k))
  {
    RotAt(s, k, 0);
    forall y ensures y in Rot(s, k) <==> y in s {
      RotContains(s, k, y);
    }
  }

  /** The closing rotation: both of its loops are rotate_solo's on the smallest node. */
  method SmallestUp(s: Sorter) returns (ghost k: nat)
    requires s.Ready() && s.a.nodes != [] && Indexed(s.a.nodes)
    modifies s`out, s.a, s.pool`next, s.pool`prev
    ensures s.Ready() && k < |old(s.a.vals)| && s.a.vals == Rot(old(s.a.vals), k)
    ensures |s.a.nodes| == old(|s.a.nodes|)
    ensures s.a.vals != [] && IsMin(s.a.vals[0], s.a.vals)
    ensures |s.out| == old(|s.out|) + Turns(k < |s.a.nodes| / 2, k, |s.a.nodes|)
    ensures 2 * (|s.out| - old(|s.out|)) <= |s.a.nodes| + 1
  {
    hide Exec, Linked, Holds, Disjoint, Rot, IsMin, Turns, Indexed;
    var stack := GetSmallest(s.a);
    k := SmallestPlace(s.a, stack);
    MinInRot(s.a.vals, k);
    TurnsBound(k, |s.a.nodes|);
    RotateSolo(s, s.a, stack, 'a', k);
  }

  lemma BigBound(n: nat, p: nat)
    requires 3 <= p && p + 3 <= n
    ensures 2 * (6 + RoundsBound(n, n - p - 3)) + (if p == 3 then 8 else 0)
          + InsertBound(n) - InsertBound(p) + 2 * n + 2 <= Limit(n)
  {
    RoundsBoundIsProduct(n, n - p - 3);
    InsertBoundIsSquare(n);
    InsertBoundIsSquare(p);
    MulMonotone(n + 4, n - p - 3, n - 6);
    MulMonotone(p, 3, p);
    ProductsOut(n);
  }

  lemma MulMonotone(c: nat, x: int, y: int)
    requires x <= y
    ensures c * x <= c * y
  {
  }

  lemma ProductsOut(n: int)
    ensures (n + 4) * (n - 6) == n * n - 2 * n - 24
    ensures 3 * n * (n + 1) == 3 * (n * n) + 3 * n
  {
  }

  method AlgoVegan(s: Sorter)
    requires s.Ready() && Simple(s.start)
    requires 5 < |s.a.nodes| <= INT_MAX && s.b.nodes == []
    modifies s`out, s.a, s.b, s.pool
    ensures s.Ready() && s.b.nodes == [] && Ascending(s.a.vals)
    ensures |s.a.nodes| == old(|s.a.nodes|)
    ensures 4 * (|s.out| - old(|s.out|)) <= Limit(|s.a.nodes|)
  {
    hide s.InPool, Exec, Linked, Holds, Disjoint, Rot, IsMin, Indexed, Simple, Cyclic, Distinct;
    hide Ascending, NonDescending, RoundsBound, InsertBound, Flags, Fair, Limit;
    ghost var n := |s.a.nodes|;
    ghost var rounds := StepOne(s);
    ghost var p := |s.a.nodes|;
    var sorted := IsSorted(s.a);
    ExecDistinct(s.out, s.start);
    SortedIsAscending(s.a.vals);
    if !sorted {
      Three(s);
    }
    AscendingIsCyclic(s.a.vals);
    StepTwo(s);
    ghost var a := s.a.vals;
    ghost var k := SmallestUp(s);
    RotKeepsCyclic(a, k);
    MinOnTopSorts(s.a.vals);
    BigBound(n, p);
  }
}
