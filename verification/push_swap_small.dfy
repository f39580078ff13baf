// Up to five values, the choice of algorithm and the program as a whole
// (push_swap/srcs/sorting_1.c, push_swap/push_swap.c:29-50).

module PushSwapSmall {
  import opened Collections
  import opened Limits
  import opened PushSwapList
  import opened PushSwapInstr
  import opened PushSwapOrder
  import opened PushSwapScan
  import opened PushSwapSorter
  import opened PushSwapRotate
  import opened PushSwapBig
  import opened PushSwapInsert

  /** b descends from its top and lies below everything on a. */
  ghost predicate Stacked(b: seq<int>, a: seq<int>) {
    && (forall i, j :: 0 <= i < j < |b| ==> b[j] < b[i])
    && (forall x, y :: x in b && y in a ==> x < y)
  }

  lemma StackedRot(b: seq<int>, a: seq<int>, k: nat)
    requires k <= |a| && Stacked(b, a)
    ensures Stacked(b, Rot(a, k))
  {
    forall y ensures y in Rot(a, k) <==> y in a {
      RotContains(a, k, y);
    }
  }

  lemma StackedPush(b: seq<int>, a: seq<int>)
    requires a != [] && Distinct(a) && IsMin(a[0], a) && Stacked(b, a)
    ensures Stacked([a[0]] + b, a[1..])
  {
    var t := [a[0]] + b;
    forall x, y | x in t && y in a[1..] ensures x < y {
      var i :| 0 <= i < |a[1..]| && a[1..][i] == y;
      assert y == a[i + 1] && a[i + 1] != a[0] && y in a;
    }
    forall i, j | 0 <= i < j < |t| ensures t[j] < t[i] {
      assert t[j] == b[j - 1] && b[j - 1] in b && a[0] in a;
    }
  }

  lemma StackedPull(b: seq<int>, a: seq<int>)
    requires b != [] && Ascending(a) && Stacked(b, a)
    ensures Ascending([b[0]] + a) && Stacked(b[1..], [b[0]] + a)
  {
    var t := [b[0]] + a;
    assert b[0] in b;
    forall i, j | 0 <= i < j < |t| ensures t[i] < t[j] {
      assert t[j] == a[j - 1] && a[j - 1] in a;
    }
    forall x, y | x in b[1..] && y in t ensures x < y {
      var i :| 0 <= i < |b[1..]| && b[1..][i] == x;
      assert x == b[i + 1] && x in b;
    }
  }

  lemma MinBack(s: seq<int>, k: nat)
    requires k < |s| && Rot(s, k) != [] && IsMin(Rot(s, k)[0], Rot(s, k))
    ensures IsMin(s[k], s) && Rot(s, k)[0] == s[k] && |Rot(s, k)| == |s|
  {
    RotAt(s, k, 0);
    forall y ensures y in Rot(s, k) <==> y in s {
      RotContains(s, k, y);
    }
  }

  /**
   * One iteration of the first loop of diet_algo: the least value comes on top by the turns med
   * chooses, and is pushed unless that sorts A.
   */
  method DietRound(s: Sorter) returns (ghost k: nat)
    requires s.Ready() && Simple(s.start) && Stacked(s.b.vals, s.a.vals)
    requires 3 < |s.a.nodes| <= 5 && !NonDescending(s.a.vals)
    modifies s`out, s.a, s.b, s.pool`next, s.pool`prev, s.pool`index, s.pool`med
    ensures s.Ready() && Stacked(s.b.vals, s.a.vals)
    ensures k < old(|s.a.vals|) && IsMin(old(s.a.vals)[k], old(s.a.vals))
    ensures if NonDescending(Rot(old(s.a.vals), k))
            then
              && s.a.vals == Rot(old(s.a.vals), k) && s.b.vals == old(s.b.vals)
              && |s.out| == old(|s.out|) + Turns(k < old(|s.a.vals|) / 2, k, old(|s.a.vals|))
            else
              && s.a.vals == Rot(old(s.a.vals), k)[1..] && s.b.vals == [old(s.a.vals)[k]] + old(s.b.vals)
              && |s.out| == old(|s.out|) + Turns(k < old(|s.a.vals|) / 2, k, old(|s.a.vals|)) + 1
  {
    hide Exec, Linked, Holds, Disjoint, Rot, Distinct, IsMin, Indexed, Simple, NonDescending, Stacked, Turns;
    SetIndex(s.a);
    if s.b.head != null {
      SetIndexB(s);
    }
    ghost var a := s.a.vals;
    k := SmallestUp(s);
    MinBack(a, k);
    StackedRot(s.b.vals, a, k);
    var sorted := IsSorted(s.a);
    if !sorted {
      ExecDistinct(s.out, s.start);
      StackedPush(s.b.vals, s.a.vals);
      s.PaPb(s.a, s.b, 'b');
    }
  }

  /** The last loop of diet_algo. */
  method PullAll(s: Sorter)
    requires s.Ready() && Stacked(s.b.vals, s.a.vals) && Ascending(s.a.vals)
    modifies s`out, s.a, s.b, s.pool`next, s.pool`prev
    ensures s.Ready() && s.b.nodes == [] && Ascending(s.a.vals)
    ensures |s.a.nodes| == old(|s.a.nodes| + |s.b.nodes|)
    ensures |s.out| == old(|s.out| + |s.b.nodes|) && (old(s.b.nodes) == [] ==> s.out == old(s.out))
  {
    hide Exec, Linked, Holds, Disjoint, Stacked, Ascending;
    while s.b.head != null
      invariant s.Ready() && Stacked(s.b.vals, s.a.vals) && Ascending(s.a.vals)
      invariant |s.a.nodes| + |s.b.nodes| == old(|s.a.nodes| + |s.b.nodes|)
      invariant |s.out| + |s.b.nodes| == old(|s.out| + |s.b.nodes|)
      invariant old(s.b.nodes) == [] ==> s.b.nodes == [] && s.out == old(s.out)
      decreases |s.b.nodes|
    {
      StackedPull(s.b.vals, s.a.vals);
      s.PaPb(s.b, s.a, 'a');
    }
  }

  lemma TurnsFew(k: nat, n: nat)
    requires k < n && 3 < n <= 5
    ensures Turns(k < n / 2, k, n) <= 3
  {
  }

  method DietAlgo(s: Sorter)
    requires s.Ready() && Simple(s.start)
    requires 2 <= |s.a.nodes| <= 5 && s.b.nodes == [] && !NonDescending(s.a.vals)
    modifies s`out, s.a, s.b, s.pool
    ensures s.Ready() && s.b.nodes == [] && Ascending(s.a.vals)
    ensures |s.a.nodes| == old(|s.a.nodes|)
    ensures |s.a.nodes| == 2 ==> s.out == old(s.out) + [SA]
    ensures |s.a.nodes| == 3 ==> s.out == old(s.out) + ThreeProgram(old(s.a.vals))
    ensures |s.out| - old(|s.out|) <= if |s.a.nodes| == 2 then 1 else 5 * |s.a.nodes| - 13
  {
    hide Exec, Linked, Holds, Disjoint, Simple, Stacked;
    ghost var n, printed := |s.a.nodes|, |s.out|;
    var len := s.a.Len();
    if len < 3 {
      s.SwapTwo(s.a, 'a');
    } else {
      assert Stacked(s.b.vals, s.a.vals) by { StackedNothing(s.a.vals); }
      var more := Unfinished(s.a);
      while more
        invariant s.Ready() && Stacked(s.b.vals, s.a.vals)
        invariant |s.a.nodes| >= 3 && |s.a.nodes| + |s.b.nodes| == n
        invariant more <==> |s.a.nodes| > 3 && !NonDescending(s.a.vals)
        invariant n == 3 ==> s.out == old(s.out) && s.a.vals == old(s.a.vals)
        invariant |s.out| - printed <= 4 * |s.b.nodes| + if |s.a.nodes| > 3 && !more then 3 else 0
        decreases more, |s.a.nodes|
      {
        ghost var a := s.a.vals;
        ghost var k := DietRound(s);
        TurnsFew(k, |a|);
        more := Unfinished(s.a);
      }
      FinishDiet(s);
    }
  }

  lemma StackedNothing(a: seq<int>)
    ensures Stacked([], a)
  {
  }

  /** What diet_algo does after its first loop. */
  method FinishDiet(s: Sorter)
    requires s.Ready() && Simple(s.start) && Stacked(s.b.vals, s.a.vals)
    requires |s.a.nodes| >= 3 && (|s.a.nodes| == 3 || NonDescending(s.a.vals))
    modifies s`out, s.a, s.b, s.pool`next, s.pool`prev, s.pool`data
    ensures s.Ready() && s.b.nodes == [] && Ascending(s.a.vals)
    ensures |s.a.nodes| == old(|s.a.nodes| + |s.b.nodes|)
    ensures |s.out| <= old(|s.out| + |s.b.nodes|) + if old(|s.a.nodes|) == 3 then 2 else 0
    ensures old(s.b.nodes == [] && !NonDescending(s.a.vals)) ==> s.out == old(s.out) + ThreeProgram(old(s.a.vals))
  {
    hide Exec, Linked, Holds, Disjoint, Simple, Stacked, Ascending, NonDescending, Distinct;
    var sorted := IsSorted(s.a);
    ExecDistinct(s.out, s.start);
    SortedIsAscending(s.a.vals);
    if !sorted {
      ghost var was, t := s.a.vals, s.out;
      Three(s);
      ExecKeeps(t, s.start);
      ExecKeeps(s.out, s.start);
      StackedPermuted(s.b.vals, was, s.a.vals);
    }
    PullAll(s);
  }

  lemma StackedPermuted(b: seq<int>, a: seq<int>, c: seq<int>)
    requires Stacked(b, a) && multiset(a) + multiset(b) == multiset(c) + multiset(b)
    ensures Stacked(b, c)
  {
    forall y | y in c ensures y in a {
      assert (multiset(a) + multiset(b))[y] == (multiset(c) + multiset(b))[y];
      assert multiset(c)[y] > 0;
    }
  }

  lemma SmallBound(n: nat)
    requires 2 <= n <= 5
    ensures 4 * (if n == 2 then 1 else 5 * n - 13) <= Limit(n)
  {
    assert n == 2 || n == 3 || n == 4 || n == 5;
  }

  method PickSort(s: Sorter)
    requires s.Ready() && Simple(s.start)
    requires 1 <= |s.a.nodes| <= INT_MAX && s.b.nodes == []
    modifies s`out, s.a, s.b, s.pool
    ensures s.Ready() && s.b.nodes == [] && Ascending(s.a.vals)
    ensures |s.a.nodes| == old(|s.a.nodes|)
    ensures 4 * (|s.out| - old(|s.out|)) <= Limit(|s.a.nodes|)
    ensures old(NonDescending(s.a.vals)) ==> s.out == old(s.out)
  {
    hide Exec, Linked, Holds, Disjoint, Simple, Ascending, NonDescending, Distinct, Limit;
    ExecDistinct(s.out, s.start);
    SortedIsAscending(s.a.vals);
    var sorted := IsSorted(s.a);
    var len := s.a.Len();
    if sorted || len == 1 {
      SingleAscending(s.a.vals);
      return;
    }
    SingleAscending(s.a.vals);
    if len <= 5 {
      SmallBound(len);
      DietAlgo(s);
    } else {
      AlgoVegan(s);
    }
  }

  lemma SingleAscending(s: seq<int>)
    ensures |s| == 1 ==> Ascending(s) && NonDescending(s)
  {
  }

  lemma SquareBound(n: nat, count: nat)
    requires n >= 1 && 4 * count <= Limit(n)
    ensures count <= n * n
  {
    if n >= 3 {
      assert n * n >= 3 * n;
      assert 3 * n * (n + 1) == 3 * (n * n) + 3 * n;
    } else {
      assert n == 1 || n == 2;
    }
  }

  lemma NothingDone(s: State)
    ensures Exec([], s) == s
  {
  }

  /**
   * The whole program: what it prints for pairwise distinct ints sorts them,
   * by the rules of the instruction set alone, in at most n * n instructions,
   * and in none exactly when they are sorted already.
   */
  method PushSwap(values: seq<int32>) returns (prog: seq<Instr>)
    requires values != [] && |values| <= INT_MAX && Distinct(values)
    ensures var end := Exec(prog, State(values, []));
      end.b == [] && Ascending(end.a) && multiset(end.a) == multiset(values)
    ensures 4 * |prog| <= Limit(|values|)
    ensures |prog| <= |values| * |values|
    ensures prog == [] <==> Ascending(values)
  {
    hide Exec, Linked, Holds, Disjoint, Ascending, Simple, Limit;
    var s := new Sorter(values);
    DistinctIsSimple(values);
    PickSort(s);
    prog := s.out;
    SortedIsAscending(values);
    NothingDone(State(values, []));
    hide Distinct, NonDescending;
    ExecKeeps(prog, s.start);
    assert multiset(s.a.vals) + multiset(s.b.vals) == multiset(s.a.vals);
    SquareBound(|values|, |prog|);
  }
}
