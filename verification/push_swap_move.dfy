// One move from A to B: joint rotation, single rotations, push
// (push_swap/srcs/sorting_2.c:51-63), and what it costs.

module PushSwapMove {
  import opened Collections
  import opened PushSwapList
  import opened PushSwapInstr
  import opened PushSwapOrder
  import opened PushSwapScan
  import opened PushSwapSorter
  import opened PushSwapRotate

  /** Instructions printed to bring positions k of A and j of B on top and push. */
  function MoveCost(k: nat, na: nat, j: nat, nb: nat): (c: nat)
    requires k < na && j < nb
  {
    var ta, tb := Turns(k < na / 2, k, na), Turns(j < nb / 2, j, nb);
    if (k < na / 2) == (j < nb / 2) then Max(ta, tb) + 1 else ta + tb + 1
  }

  lemma TurnsIsDistance(k: nat, n: nat)
    requires k < n && n > 1
    ensures Turns(k < n / 2, k, n) == Distance(k, n)
    ensures 2 * Distance(k, n) <= n + 1
  {
  }

  /** The direction med chooses is a shortest one except for the middle of an odd list. */
  lemma DistanceIsShortest(k: nat, n: nat)
    requires k < n
    ensures Distance(k, n) == Min(k, n - k) <==> !(n % 2 == 1 && k == n / 2)
    ensures Distance(k, n) <= Min(k, n - k) + 1
  {
  }

  /** Position k seen after a joint rotation: where it is, and that rotating on lands at k. */
  lemma SeenUp<T>(s: seq<T>, k: nat, m: nat)
    requires m <= k < |s|
    ensures Rot(s, m)[k - m] == s[k] && Rot(Rot(s, m), k - m) == Rot(s, k)
  {
    RotAt(s, m, k - m);
    RotRot(s, m, k - m);
  }

  function DownPlace(k: nat, n: nat, m: nat): (p: nat)
    requires k < n && (m == 0 || m <= n - k)
    ensures p < n
  {
    if m == n - k then 0 else k + m
  }

  lemma SeenDown<T>(s: seq<T>, k: nat, m: nat)
    requires k < |s| && (m == 0 || m <= |s| - k)
    ensures var p := DownPlace(k, |s|, m);
      Rot(s, |s| - m)[p] == s[k] && Rot(Rot(s, |s| - m), p) == Rot(s, k)
  {
    hide Rot;
    if m == 0 {
      RotWhole(s);
    } else if m == |s| - k {
      RotAt(s, k, 0);
      RotWhole(Rot(s, k));
    } else {
      RotWhole(s);
      RotRot(s, |s| - m, k + m);
      RotAt(s, |s| - m, k + m);
    }
  }

  lemma JointUpCost(k: nat, na: nat, j: nat, nb: nat)
    requires k < na / 2 && j < nb / 2
    ensures var m := Min(k, j);
      && m <= k && m <= j && k - m < na / 2 && j - m < nb / 2
      && m + Turns(true, k - m, na) + Turns(true, j - m, nb) + 1 == MoveCost(k, na, j, nb)
  {
  }

  lemma JointDownCost(k: nat, na: nat, j: nat, nb: nat)
    requires na / 2 <= k < na && nb / 2 <= j < nb
    ensures var m := JointDown(k, na, j, nb);
      && (m == 0 || m <= na - k) && (m == 0 || m <= nb - j)
      && var k1, j1 := DownPlace(k, na, m), DownPlace(j, nb, m);
      && m + Turns(k1 < na / 2, k1, na) + Turns(j1 < nb / 2, j1, nb) + 1 == MoveCost(k, na, j, nb)
  {
  }

  /** Rotating A on to position k1 and B on to j1 ends as rotating the old lists to k and j would. */
  ghost predicate Aligned(s: Sorter, tmp: Node, k1: nat, j1: nat,
                          an: seq<Node>, av: seq<int>, bn: seq<Node>, bv: seq<int>,
                          k: nat, j: nat, printed: nat)
    requires k < |an| == |av| && j < |bn| == |bv|
    reads s, s.a, s.b, tmp, tmp.target
  {
    && |s.a.nodes| == |s.a.vals| == |an| && |s.b.nodes| == |s.b.vals| == |bn|
    && k1 < |an| && s.a.nodes[k1] == tmp && j1 < |bn| && s.b.nodes[j1] == tmp.target && tmp.target != null
    && Rot(s.a.nodes, k1) == Rot(an, k) && Rot(s.a.vals, k1) == Rot(av, k)
    && Rot(s.b.nodes, j1) == Rot(bn, j) && Rot(s.b.vals, j1) == Rot(bv, j)
    && |s.out| + Turns(tmp.med, k1, |an|) + Turns(tmp.target.med, j1, |bn|) + 1 == printed + MoveCost(k, |an|, j, |bn|)
  }

  method JointUp(s: Sorter, tmp: Node, ghost k: nat, ghost j: nat) returns (ghost k1: nat, ghost j1: nat)
    requires s.Ready() && k < |s.a.nodes| / 2 && s.a.nodes[k] == tmp
    requires j < |s.b.nodes| / 2 && s.b.nodes[j] == tmp.target
    modifies s`out, s.a, s.b, s.pool`next, s.pool`prev, s.pool`index, s.pool`med
    ensures s.Ready()
    ensures Aligned(s, tmp, k1, j1, old(s.a.nodes), old(s.a.vals), old(s.b.nodes), old(s.b.vals), k, j, old(|s.out|))
  {
    hide Exec, RotUp, RotDown, Rot, Linked, Holds, Distinct, Disjoint, Turns, Min, MoveCost;
    ghost var an, av, bn, bv := s.a.nodes, s.a.vals, s.b.nodes, s.b.vals;
    ghost var m := Min(k, j);
    JointUpCost(k, |an|, j, |bn|);
    SeenUp(an, k, m); SeenUp(av, k, m); SeenUp(bn, j, m); SeenUp(bv, j, m);
    Rr2(s, tmp, k, j);
    k1, j1 := k - m, j - m;
    assert s.a.nodes[k1].med && s.b.nodes[j1].med;
  }

  method JointBack(s: Sorter, tmp: Node, ghost k: nat, ghost j: nat) returns (ghost k1: nat, ghost j1: nat)
    requires s.Ready() && |s.a.nodes| / 2 <= k < |s.a.nodes| && s.a.nodes[k] == tmp
    requires |s.b.nodes| / 2 <= j < |s.b.nodes| && s.b.nodes[j] == tmp.target
    modifies s`out, s.a, s.b, s.pool`next, s.pool`prev, s.pool`index, s.pool`med
    ensures s.Ready()
    ensures Aligned(s, tmp, k1, j1, old(s.a.nodes), old(s.a.vals), old(s.b.nodes), old(s.b.vals), k, j, old(|s.out|))
  {
    hide Exec, RotUp, RotDown, Rot, Linked, Holds, Distinct, Disjoint, Turns, Min, MoveCost, JointDown;
    ghost var an, av, bn, bv := s.a.nodes, s.a.vals, s.b.nodes, s.b.vals;
    ghost var m := JointDown(k, |an|, j, |bn|);
    JointDownCost(k, |an|, j, |bn|);
    SeenDown(an, k, m); SeenDown(av, k, m); SeenDown(bn, j, m); SeenDown(bv, j, m);
    Rrr2(s, tmp, k, j);
    k1, j1 := DownPlace(k, |an|, m), DownPlace(j, |bn|, m);
    assert s.a.nodes[k1].med == (k1 < |an| / 2) && s.b.nodes[j1].med == (j1 < |bn| / 2);
  }

  /** The two branches of move_a_to_b before rotate_solo. */
  method JointTurn(s: Sorter, tmp: Node, ghost k: nat, ghost j: nat) returns (ghost k1: nat, ghost j1: nat)
    requires s.Ready() && Indexed(s.a.nodes) && Indexed(s.b.nodes)
    requires k < |s.a.nodes| && s.a.nodes[k] == tmp
    requires j < |s.b.nodes| && s.b.nodes[j] == tmp.target
    modifies s`out, s.a, s.b, s.pool`next, s.pool`prev, s.pool`index, s.pool`med
    ensures s.Ready()
    ensures Aligned(s, tmp, k1, j1, old(s.a.nodes), old(s.a.vals), old(s.b.nodes), old(s.b.vals), k, j, old(|s.out|))
  {
    hide Exec, RotUp, RotDown, Rot, Linked, Holds, Distinct, Disjoint;
    assert s.a.nodes[k].med == (k < |s.a.nodes| / 2) && s.b.nodes[j].med == (j < |s.b.nodes| / 2);
    k1, j1 := k, j;
    if tmp.med && tmp.target.med {
      k1, j1 := JointUp(s, tmp, k, j);
    } else if !tmp.med && !tmp.target.med {
      k1, j1 := JointBack(s, tmp, k, j);
    }
  }

  /** The single rotations and the push that end move_a_to_b. */
  method PushTogether(s: Sorter, tmp: Node, ghost k1: nat, ghost j1: nat,
                      ghost an: seq<Node>, ghost av: seq<int>, ghost bn: seq<Node>, ghost bv: seq<int>,
                      ghost k: nat, ghost j: nat, ghost printed: nat)
    requires s.Ready() && k < |an| == |av| && j < |bn| == |bv|
    requires Aligned(s, tmp, k1, j1, an, av, bn, bv, k, j, printed)
    modifies s`out, s.a, s.b, s.pool`next, s.pool`prev
    ensures s.Ready()
    ensures s.a.nodes == Rot(an, k)[1..] && s.a.vals == Rot(av, k)[1..]
    ensures s.b.nodes == [Rot(an, k)[0]] + Rot(bn, j) && s.b.vals == [Rot(av, k)[0]] + Rot(bv, j)
    ensures |s.out| == printed + MoveCost(k, |an|, j, |bn|)
  {
    hide Exec, RotUp, RotDown, Rot, Linked, Holds, Distinct, Disjoint, Turns, MoveCost;
    RotateSolo(s, s.a, tmp, 'a', k1);
    RotateSolo(s, s.b, tmp.target, 'b', j1);
    s.PaPb(s.a, s.b, 'b');
  }

  method MoveAToB(s: Sorter, ghost k: nat, ghost j: nat)
    requires s.Ready() && Indexed(s.a.nodes) && Indexed(s.b.nodes)
    requires k < |s.a.nodes| && s.a.nodes[k].cheap && forall i :: 0 <= i < k ==> !s.a.nodes[i].cheap
    requires j < |s.b.nodes| && s.b.nodes[j] == s.a.nodes[k].target
    modifies s`out, s.a, s.b, s.pool`next, s.pool`prev, s.pool`index, s.pool`med
    ensures s.Ready()
    ensures s.a.nodes == Rot(old(s.a.nodes), k)[1..] && s.a.vals == Rot(old(s.a.vals), k)[1..]
    ensures s.b.nodes == [old(s.a.nodes)[k]] + Rot(old(s.b.nodes), j)
    ensures s.b.vals == [old(s.a.vals)[k]] + Rot(old(s.b.vals), j)
    ensures |s.out| == old(|s.out|) + MoveCost(k, old(|s.a.nodes|), j, old(|s.b.nodes|))
  {
    hide Exec, RotUp, RotDown, Rot, Linked, Holds, Distinct, Disjoint, Turns, MoveCost;
    ghost var first;
    var tmp: Node?;
    tmp, first := GetCheapest(s.a);
    assert first == k;
    ghost var an, av := s.a.nodes, s.a.vals;
    RotAt(an, k, 0);
    RotAt(av, k, 0);
    ghost var printed, bn, bv := |s.out|, s.b.nodes, s.b.vals;
    ghost var k1, j1 := JointTurn(s, tmp, k, j);
    PushTogether(s, tmp, k1, j1, an, av, bn, bv, k, j, printed);
  }
}
