// One iteration of step_one: price every node of A, move the cheapest one
// (push_swap/srcs/sorting_2.c:40-48).

module PushSwapRound {
  import opened Collections
  import opened Limits
  import opened PushSwapList
  import opened PushSwapInstr
  import opened PushSwapOrder
  import opened PushSwapScan
  import opened PushSwapSorter
  import opened PushSwapRotate
  import opened PushSwapMove

  /** What cheap holds, node by node; the program never initialises it. */
  ghost function Flags(nodes: seq<Node>): (flags: seq<bool>)
    reads nodes`cheap
    ensures |flags| == |nodes| && forall i :: 0 <= i < |nodes| ==> flags[i] == nodes[i].cheap
  {
    if nodes == [] then [] else Flags(nodes[..|nodes| - 1]) + [nodes[|nodes| - 1].cheap]
  }

  ghost predicate Clear(flags: seq<bool>) {
    forall i :: 0 <= i < |flags| ==> !flags[i]
  }

  /** Moving position k of A onto position j of B, its predecessor, is as cheap as any such move. */
  ghost predicate CheapestMove(a: seq<int>, b: seq<int>, k: nat, j: nat) {
    k < |a| && j < |b| && IsPredecessor(b[j], a[k], b) &&
    forall i: nat, t: nat :: i < |a| && t < |b| && IsPredecessor(b[t], a[i], b) ==>
      Distance(k, |a|) + Distance(j, |b|) <= Distance(i, |a|) + Distance(t, |b|)
  }

  /** A cheapest move none before which is one. */
  ghost predicate FirstCheapest(a: seq<int>, b: seq<int>, k: nat, j: nat) {
    CheapestMove(a, b, k, j) && forall i: nat, t: nat :: i < k ==> !CheapestMove(a, b, i, t)
  }

  /** get_cheapest after set_cheapest flagged least: the first flagged node, whoever flagged it. */
  predicate Chosen(flags: seq<bool>, least: nat, k: nat) {
    k <= least < |flags| && (k == least || flags[k]) && forall i :: 0 <= i < k ==> !flags[i]
  }

  /** Some cheapest node of A has no flagged one before it. */
  ghost predicate Unspoiled(a: seq<int>, b: seq<int>, flags: seq<bool>)
    requires |flags| == |a|
  {
    exists m: nat, t: nat :: CheapestMove(a, b, m, t) && forall i :: 0 <= i < m ==> !flags[i]
  }

  /**
   * A round: the stacks and the flags before it, the first cheapest place of A,
   * and the places in A and B brought together.
   */
  datatype Round = Round(a: seq<int>, b: seq<int>, flags: seq<bool>, least: nat, k: nat, j: nat)

  ghost predicate Fair(r: Round) {
    && Distinct(r.b) && |r.flags| == |r.a|
    && (exists t: nat :: FirstCheapest(r.a, r.b, r.least, t)) && Chosen(r.flags, r.least, r.k)
    && r.j < |r.b| && IsPredecessor(r.b[r.j], r.a[r.k], r.b)
  }

  ghost function AfterA(r: Round): seq<int>
    requires Fair(r)
  {
    Rot(r.a, r.k)[1..]
  }

  ghost function AfterB(r: Round): seq<int>
    requires Fair(r)
  {
    [r.a[r.k]] + Rot(r.b, r.j)
  }

  /** set_cheapest has flagged least; the flag of the node moved goes with it. */
  ghost function AfterFlags(r: Round): seq<bool>
    requires Fair(r)
  {
    Rot(r.flags[r.least := true], r.k)[1..]
  }

  /** The node chosen is a cheapest one exactly when no flag left over hides the cheapest ones. */
  lemma ChosenCheapest(a: seq<int>, b: seq<int>, flags: seq<bool>, least: nat, t: nat, k: nat, j: nat)
    requires Distinct(b) && |flags| == |a| && FirstCheapest(a, b, least, t) && Chosen(flags, least, k)
    requires j < |b| && IsPredecessor(b[j], a[k], b)
    ensures CheapestMove(a, b, k, j) <==> Unspoiled(a, b, flags)
  {
    if CheapestMove(a, b, k, j) {
      assert k == least;
    } else if Unspoiled(a, b, flags) {
      var m: nat, u: nat :| CheapestMove(a, b, m, u) && forall i :: 0 <= i < m ==> !flags[i];
      assert k == least;
      PredecessorUnique(b[j], b[t], a[k], b);
    }
    hide IsPredecessor, Distance;
  }

  lemma PredecessorUnique(x: int, y: int, v: int, s: seq<int>)
    requires IsPredecessor(x, v, s) && IsPredecessor(y, v, s)
    ensures x == y
  {
  }

  /** set_index on both lists, set_target_a and get_cost_a. */
  method PriceNodes(s: Sorter)
    requires s.Valid() && s.a.nodes != [] && s.b.nodes != []
    modifies s.pool`index, s.pool`med, s.pool`target, s.pool`cost
    ensures s.Valid() && Indexed(s.a.nodes) && Indexed(s.b.nodes)
    ensures AimedDown(s.a.nodes, s.b.nodes, s.b.vals) && Priced(s.a.nodes, s.b.nodes)
  {
    hide Linked, Holds, Disjoint, Indexed, AimedDown, Priced;
    SetIndexBoth(s);
    SetTargetA(s.a, s.b);
    GetCostA(s.a, s.b);
  }

  /** The pricing, and then set_cheapest. */
  method PriceAll(s: Sorter) returns (ghost least: nat)
    requires s.Valid() && s.a.nodes != [] && s.b.nodes != []
    requires |s.a.nodes| + |s.b.nodes| <= INT_MAX
    modifies s.pool`index, s.pool`med, s.pool`target, s.pool`cost, s.pool`cheap
    ensures s.Valid() && Indexed(s.a.nodes) && Indexed(s.b.nodes)
    ensures AimedDown(s.a.nodes, s.b.nodes, s.b.vals) && Priced(s.a.nodes, s.b.nodes)
    ensures least < |s.a.nodes| && FirstLeast(s.a.nodes, least)
    ensures s.a.nodes[least].cheap
    ensures forall i :: 0 <= i < |s.a.nodes| && i != least ==> s.a.nodes[i].cheap == old(s.a.nodes[i].cheap)
  {
    hide Linked, Holds, Disjoint, Indexed, AimedDown, Priced, Cheapest, FirstLeast;
    PriceNodes(s);
    CostsFit(s.a.nodes, s.b.nodes);
    least := SetCheapest(s.a);
  }

  lemma CostsFit(a: seq<Node>, b: seq<Node>)
    requires Priced(a, b) && |a| + |b| <= INT_MAX
    ensures forall i :: 0 <= i < |a| ==> a[i].cost < LONG_MAX
  {
  }

  lemma SomeChosen(flags: seq<bool>, least: nat) returns (k: nat)
    requires least < |flags|
    ensures Chosen(flags, least, k)
  {
    k := 0;
    while k < least && !flags[k]
      invariant k <= least && forall i :: 0 <= i < k ==> !flags[i]
    {
      k := k + 1;
    }
  }

  /** The cost computed for a node is the cost of its only move onto a predecessor. */
  lemma CostOfMove(a: Stack, b: Stack, i: nat, t: nat)
    requires a.Valid() && b.Valid() && Distinct(b.vals)
    requires Indexed(b.nodes) && AimedDown(a.nodes, b.nodes, b.vals) && Priced(a.nodes, b.nodes)
    requires i < |a.nodes| && t < |b.nodes| && IsPredecessor(b.vals[t], a.vals[i], b.vals)
    ensures a.nodes[i].cost == Distance(i, |a.nodes|) + Distance(t, |b.nodes|)
  {
    TargetFacts(a, b, i);
    PredecessorUnique(b.vals[t], b.vals[a.nodes[i].target.index], a.vals[i], b.vals);
    hide IsPredecessor, Distance, Linked;
  }

  /** The node of least computed cost is a cheapest move on the values. */
  lemma LeastIsCheapest(a: Stack, b: Stack, k: nat)
    requires a.Valid() && b.Valid() && Distinct(b.vals)
    requires Indexed(b.nodes) && AimedDown(a.nodes, b.nodes, b.vals) && Priced(a.nodes, b.nodes)
    requires Cheapest(a.nodes, k)
    ensures a.nodes[k].target != null && 0 <= a.nodes[k].target.index
    ensures CheapestMove(a.vals, b.vals, k, a.nodes[k].target.index)
  {
    hide IsPredecessor, Distance, Linked;
    TargetFacts(a, b, k);
    CostOfMove(a, b, k, a.nodes[k].target.index);
    forall i: nat, t: nat | i < |a.nodes| && t < |b.nodes| && IsPredecessor(b.vals[t], a.vals[i], b.vals)
      ensures a.nodes[k].cost <= Distance(i, |a.nodes|) + Distance(t, |b.nodes|)
    {
      CostOfMove(a, b, i, t);
      assert a.nodes[i].cost >= a.nodes[k].cost;
    }
  }

  /** The first node of least computed cost is the first cheapest move on the values. */
  lemma FirstIsFirst(a: Stack, b: Stack, k: nat)
    requires a.Valid() && b.Valid() && Distinct(b.vals)
    requires Indexed(b.nodes) && AimedDown(a.nodes, b.nodes, b.vals) && Priced(a.nodes, b.nodes)
    requires FirstLeast(a.nodes, k)
    ensures a.nodes[k].target != null && 0 <= a.nodes[k].target.index
    ensures FirstCheapest(a.vals, b.vals, k, a.nodes[k].target.index)
  {
    LeastIsCheapest(a, b, k);
    hide IsPredecessor, Distance, Linked;
    var j := a.nodes[k].target.index;
    CostOfMove(a, b, k, j);
    forall i: nat, t: nat | i < k && t < |b.nodes| && IsPredecessor(b.vals[t], a.vals[i], b.vals)
      ensures Distance(k, |a.nodes|) + Distance(j, |b.nodes|) < Distance(i, |a.nodes|) + Distance(t, |b.nodes|)
    {
      CostOfMove(a, b, i, t);
    }
  }

  lemma TargetFacts(a: Stack, b: Stack, i: nat)
    requires a.Valid() && b.Valid() && i < |a.nodes|
    requires Indexed(b.nodes) && AimedDown(a.nodes, b.nodes, b.vals)
    ensures var t := a.nodes[i].target;
      && t != null && 0 <= t.index < |b.nodes| && b.nodes[t.index] == t
      && IsPredecessor(b.vals[t.index], a.vals[i], b.vals)
  {
    var t := a.nodes[i].target;
    IndexIsPosition(b.nodes, t);
    assert b.nodes[t.index].data == b.vals[t.index] && a.nodes[i].data == a.vals[i];
  }

  lemma FlagTurned(nodes: seq<Node>, k: nat, i: nat)
    requires k < |nodes| && i + 1 < |nodes|
    ensures |Rot(nodes, k)| == |nodes| && |Rot(Flags(nodes), k)| == |nodes|
    ensures Rot(nodes, k)[i + 1].cheap == Rot(Flags(nodes), k)[i + 1]
  {
    RotAt(nodes, k, i + 1);
    RotAt(Flags(nodes), k, i + 1);
    hide Flags, Rot;
  }

  lemma SameFlags(nodes: seq<Node>, flags: seq<bool>)
    requires |nodes| == |flags| && forall i :: 0 <= i < |nodes| ==> nodes[i].cheap == flags[i]
    ensures Flags(nodes) == flags
  {
    hide Flags;
  }

  lemma FlagsTurn(nodes: seq<Node>, k: nat)
    requires k < |nodes|
    ensures |Rot(nodes, k)| == |nodes| && Flags(Rot(nodes, k)[1..]) == Rot(Flags(nodes), k)[1..]
  {
    var flags := Rot(Flags(nodes), k)[1..];
    hide Flags, Rot;
    var rest := Rot(nodes, k)[1..];
    forall i | 0 <= i < |rest| ensures rest[i].cheap == flags[i] {
      FlagTurned(nodes, k, i);
    }
    SameFlags(rest, flags);
  }

  /**
   * Moves the first node of A that is flagged or the first cheapest one on top of B, next to
   * its predecessor: a cheapest move exactly when no flag left over hides the cheapest ones.
   */
  method StepOneRound(s: Sorter) returns (ghost r: Round)
    requires s.Ready() && Simple(s.start)
    requires |s.a.nodes| > 3 && |s.b.nodes| >= 3 && |s.a.nodes| + |s.b.nodes| <= INT_MAX
    modifies s`out, s.a, s.b, s.pool`next, s.pool`prev, s.pool`index, s.pool`med
    modifies s.pool`target, s.pool`cost, s.pool`cheap
    ensures s.Ready()
    ensures r.a == old(s.a.vals) && r.b == old(s.b.vals) && r.flags == old(Flags(s.a.nodes)) && Fair(r)
    ensures s.a.vals == AfterA(r) && s.b.vals == AfterB(r) && Flags(s.a.nodes) == AfterFlags(r)
    ensures |s.out| == old(|s.out|) + MoveCost(r.k, |r.a|, r.j, |r.b|)
    ensures CheapestMove(r.a, r.b, r.k, r.j) <==> Unspoiled(r.a, r.b, r.flags)
  {
    hide Exec, Linked, Holds, Rot, Disjoint, MoveCost, IsPredecessor, CheapestMove;
    hide Indexed, AimedDown, Priced, Cheapest, Simple, FirstCheapest, Unspoiled, Flags, FirstLeast;
    ghost var a, b, flags := s.a.vals, s.b.vals, Flags(s.a.nodes);
    ExecDistinct(s.out, s.start);
    ghost var least := PriceAll(s);
    SameFlags(s.a.nodes, flags[least := true]);
    ghost var k := SomeChosen(flags, least);
    TargetFacts(s.a, s.b, k);
    ghost var j := s.a.nodes[k].target.index;
    FirstIsFirst(s.a, s.b, least);
    ChosenCheapest(a, b, flags, least, s.a.nodes[least].target.index, k, j);
    r := Round(a, b, flags, least, k, j);
    ghost var nodes := s.a.nodes;
    MoveAToB(s, k, j);
    FlagsTurn(nodes, k);
  }
}
