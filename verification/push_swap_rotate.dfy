// The rotation loops of push_swap (push_swap/srcs/actions_2.c).

module PushSwapRotate {
  import opened Collections
  import opened PushSwapList
  import opened PushSwapInstr
  import opened PushSwapScan
  import opened PushSwapSorter

  lemma RotNext<T>(s: seq<T>, j: nat)
    requires j < |s|
    ensures RotUp(Rot(s, j)) == Rot(s, j + 1)
    ensures RotDown(Rot(s, j + 1)) == Rot(s, j)
  {
  }

  lemma RotWhole<T>(s: seq<T>)
    ensures Rot(s, 0) == s && Rot(s, |s|) == s
  {
  }

  lemma NodesDistinct(stack: Stack)
    requires stack.Valid()
    ensures Distinct(stack.nodes)
  {
  }

  lemma OnTop<T>(s: seq<T>, k: nat, j: nat)
    requires Distinct(s) && k < |s| && j <= |s|
    ensures Rot(s, j)[0] == s[k] <==> j == k || (k == 0 && j == |s|)
  {
  }

  /** Rotations needed to bring position k of n on top when med has this value. */
  function Turns(med: bool, k: nat, n: nat): (t: nat)
    requires k < n
  {
    if k == 0 then 0 else if med then k else n - k
  }

  method RotateSolo(s: Sorter, stack: Stack, tmp: Node, c: char, ghost k: nat)
    requires s.Ready() && s.Names(stack, c) && k < |stack.nodes| && stack.nodes[k] == tmp
    modifies s`out, stack, s.pool`next, s.pool`prev
    ensures s.Ready()
    ensures stack.nodes == Rot(old(stack.nodes), k) && stack.vals == Rot(old(stack.vals), k)
    ensures |s.out| == old(|s.out|) + Turns(tmp.med, k, |stack.nodes|)
  {
    hide Exec, RotUp, RotDown, Rot, Linked, Holds, Distinct, Disjoint;
    NodesDistinct(stack);
    ghost var nodes, vals, n := stack.nodes, stack.vals, |stack.nodes|;
    ghost var j: nat := if tmp.med || k == 0 then 0 else n;
    RotWhole(nodes);
    RotWhole(vals);
    while stack.head != tmp
      invariant s.Ready() && j <= n
      invariant stack.nodes == Rot(nodes, j) && stack.vals == Rot(vals, j)
      invariant if tmp.med || k == 0 then j <= k && |s.out| == old(|s.out|) + j
                else k <= j && |s.out| == old(|s.out|) + n - j
      decreases if tmp.med || k == 0 then k - j else j - k
    {
      OnTop(nodes, k, j);
      assert stack.nodes[0] == stack.head;
      if tmp.med {
        RotNext(nodes, j);
        RotNext(vals, j);
        s.RaRb(stack, c);
        j := j + 1;
      } else {
        RotNext(nodes, j - 1);
        RotNext(vals, j - 1);
        s.RraRrb(stack, c);
        j := j - 1;
      }
    }
    OnTop(nodes, k, j);
    assert stack.nodes[0] == stack.head;
  }

  function Min(x: nat, y: nat): nat {
    if x < y then x else y
  }

  function Max(x: nat, y: nat): nat {
    if x < y then y else x
  }

  /** set_index on B leaves the indices of A alone. */
  method SetIndexB(s: Sorter)
    requires s.Valid() && Indexed(s.a.nodes)
    modifies s.pool`index, s.pool`med
    ensures Indexed(s.a.nodes) && Indexed(s.b.nodes)
  {
    SetIndex(s.b);
  }

  method SetIndexBoth(s: Sorter)
    requires s.Valid()
    modifies s.pool`index, s.pool`med
    ensures Indexed(s.a.nodes) && Indexed(s.b.nodes)
  {
    SetIndex(s.a);
    SetIndexB(s);
  }

  /** Joint upward rotation until one of the two nodes is on top, then new indices. */
  method Rr2(s: Sorter, tmp: Node, ghost i: nat, ghost j: nat)
    requires s.Ready() && i < |s.a.nodes| && s.a.nodes[i] == tmp
    requires j < |s.b.nodes| && s.b.nodes[j] == tmp.target
    modifies s`out, s.a, s.b, s.pool`next, s.pool`prev, s.pool`index, s.pool`med
    ensures s.Ready() && Indexed(s.a.nodes) && Indexed(s.b.nodes)
    ensures s.a.nodes == Rot(old(s.a.nodes), Min(i, j)) && s.a.vals == Rot(old(s.a.vals), Min(i, j))
    ensures s.b.nodes == Rot(old(s.b.nodes), Min(i, j)) && s.b.vals == Rot(old(s.b.vals), Min(i, j))
    ensures |s.out| == old(|s.out|) + Min(i, j)
  {
    hide Exec, RotUp, RotDown, Rot, Linked, Holds, Distinct, Disjoint;
    NodesDistinct(s.a);
    NodesDistinct(s.b);
    ghost var an, av, bn, bv := s.a.nodes, s.a.vals, s.b.nodes, s.b.vals;
    ghost var k: nat := 0;
    RotWhole(an); RotWhole(av); RotWhole(bn); RotWhole(bv);
    while s.a.head != tmp && s.b.head != tmp.target
      invariant s.Ready() && k <= Min(i, j)
      invariant s.a.nodes == Rot(an, k) && s.a.vals == Rot(av, k)
      invariant s.b.nodes == Rot(bn, k) && s.b.vals == Rot(bv, k)
      invariant |s.out| == old(|s.out|) + k
      decreases Min(i, j) - k
    {
      OnTop(an, i, k); OnTop(bn, j, k);
      RotNext(an, k); RotNext(av, k); RotNext(bn, k); RotNext(bv, k);
      s.Rr();
      k := k + 1;
    }
    OnTop(an, i, k); OnTop(bn, j, k);
    SetIndexBoth(s);
  }

  /** The steps rrr_2 makes: none if a node is on top already. */
  function JointDown(i: nat, na: nat, j: nat, nb: nat): (k: nat)
    requires i < na && j < nb
  {
    if i == 0 || j == 0 then 0 else Min(na - i, nb - j)
  }

  /** Joint downward rotation until one of the two nodes is on top, then new indices. */
  method Rrr2(s: Sorter, tmp: Node, ghost i: nat, ghost j: nat)
    requires s.Ready() && i < |s.a.nodes| && s.a.nodes[i] == tmp
    requires j < |s.b.nodes| && s.b.nodes[j] == tmp.target
    modifies s`out, s.a, s.b, s.pool`next, s.pool`prev, s.pool`index, s.pool`med
    ensures s.Ready() && Indexed(s.a.nodes) && Indexed(s.b.nodes)
    ensures var k := JointDown(i, old(|s.a.nodes|), j, old(|s.b.nodes|));
      && s.a.nodes == Rot(old(s.a.nodes), old(|s.a.nodes|) - k) && s.a.vals == Rot(old(s.a.vals), old(|s.a.vals|) - k)
      && s.b.nodes == Rot(old(s.b.nodes), old(|s.b.nodes|) - k) && s.b.vals == Rot(old(s.b.vals), old(|s.b.vals|) - k)
      && |s.out| == old(|s.out|) + k
  {
    hide Exec, RotUp, RotDown, Rot, Linked, Holds, Distinct, Disjoint;
    NodesDistinct(s.a);
    NodesDistinct(s.b);
    ghost var an, av, bn, bv := s.a.nodes, s.a.vals, s.b.nodes, s.b.vals;
    ghost var na, nb, k: nat := |an|, |bn|, 0;
    ghost var m := JointDown(i, na, j, nb);
    RotWhole(an); RotWhole(av); RotWhole(bn); RotWhole(bv);
    while s.a.head != tmp && s.b.head != tmp.target
      invariant s.Ready() && k <= m && k <= na && k <= nb
      invariant s.a.nodes == Rot(an, na - k) && s.a.vals == Rot(av, na - k)
      invariant s.b.nodes == Rot(bn, nb - k) && s.b.vals == Rot(bv, nb - k)
      invariant |s.out| == old(|s.out|) + k
      decreases m - k
    {
      OnTop(an, i, na - k); OnTop(bn, j, nb - k);
      RotNext(an, na - k - 1); RotNext(av, na - k - 1); RotNext(bn, nb - k - 1); RotNext(bv, nb - k - 1);
      s.Rrr();
      k := k + 1;
    }
    OnTop(an, i, na - k); OnTop(bn, j, nb - k);
    SetIndexBoth(s);
  }
}
