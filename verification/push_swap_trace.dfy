// The rounds of step_one one after another: what they print altogether, and how far
// the cost they minimise is from the instructions printed (push_swap/srcs/sorting_2.c:36-63).

module PushSwapTrace {
  import opened Collections
  import opened PushSwapInstr
  import opened PushSwapOrder
  import opened PushSwapScan
  import opened PushSwapRotate
  import opened PushSwapMove
  import opened PushSwapRound

  /** The two stacks and the flags of A. */
  datatype Table = Table(a: seq<int>, b: seq<int>, flags: seq<bool>)

  function Before(r: Round): Table {
    Table(r.a, r.b, r.flags)
  }

  ghost function After(r: Round): Table
    requires Fair(r)
  {
    Table(AfterA(r), AfterB(r), AfterFlags(r))
  }

  /** The rounds lead from one table to the other. */
  ghost predicate Played(start: Table, rounds: seq<Round>, end: Table)
    decreases |rounds|
  {
    if rounds == [] then end == start
    else
      var r := rounds[|rounds| - 1];
      Fair(r) && Played(start, rounds[..|rounds| - 1], Before(r)) && end == After(r)
  }

  ghost function RoundCost(r: Round): nat
    requires Fair(r)
  {
    MoveCost(r.k, |r.a|, r.j, |r.b|)
  }

  ghost function TotalCost(rounds: seq<Round>): nat
    requires forall i :: 0 <= i < |rounds| ==> Fair(rounds[i])
  {
    if rounds == [] then 0 else TotalCost(rounds[..|rounds| - 1]) + RoundCost(rounds[|rounds| - 1])
  }

  ghost predicate AllCheapest(rounds: seq<Round>) {
    forall i :: 0 <= i < |rounds| ==> CheapestMove(rounds[i].a, rounds[i].b, rounds[i].k, rounds[i].j)
  }

  /** No flag left over hides the cheapest nodes in any of the rounds. */
  ghost predicate NoneSpoiled(rounds: seq<Round>) {
    forall i :: 0 <= i < |rounds| ==> Fair(rounds[i]) && Unspoiled(rounds[i].a, rounds[i].b, rounds[i].flags)
  }

  lemma FairCheapest(r: Round)
    requires Fair(r)
    ensures CheapestMove(r.a, r.b, r.k, r.j) <==> Unspoiled(r.a, r.b, r.flags)
    ensures Clear(r.flags) ==> CheapestMove(r.a, r.b, r.k, r.j) && Clear(AfterFlags(r))
  {
    var t: nat :| FirstCheapest(r.a, r.b, r.least, t);
    ChosenCheapest(r.a, r.b, r.flags, r.least, t, r.k, r.j);
    hide IsPredecessor;
    if Clear(r.flags) {
      assert CheapestMove(r.a, r.b, r.least, t);
      forall i | 0 <= i < |r.a| - 1 ensures !AfterFlags(r)[i] {
        RotAt(r.flags[r.least := true], r.k, i + 1);
      }
    }
  }

  /** Every round moves a cheapest node exactly when none is spoiled by a flag left over. */
  lemma AllCheapestExactly(rounds: seq<Round>)
    requires forall i :: 0 <= i < |rounds| ==> Fair(rounds[i])
    ensures AllCheapest(rounds) <==> NoneSpoiled(rounds)
  {
    forall i | 0 <= i < |rounds|
      ensures CheapestMove(rounds[i].a, rounds[i].b, rounds[i].k, rounds[i].j)
         <==> Unspoiled(rounds[i].a, rounds[i].b, rounds[i].flags)
    {
      FairCheapest(rounds[i]);
    }
    hide CheapestMove, Unspoiled;
  }

  lemma AfterSize(r: Round)
    requires Fair(r)
    ensures |AfterA(r)| + 1 == |r.a| && |AfterB(r)| == |r.b| + 1
  {
    hide Distinct, IsPredecessor, FirstCheapest;
  }

  lemma {:induction false} PlayedFair(start: Table, rounds: seq<Round>, end: Table)
    requires Played(start, rounds, end)
    ensures forall i :: 0 <= i < |rounds| ==> Fair(rounds[i])
    ensures |end.a| + |rounds| == |start.a| && |end.b| == |start.b| + |rounds|
    decreases |rounds|
  {
    hide Fair, AfterA, AfterB, AfterFlags;
    if rounds != [] {
      var n := |rounds| - 1;
      PlayedFair(start, rounds[..n], Before(rounds[n]));
      AfterSize(rounds[n]);
      assert forall i :: 0 <= i < n ==> rounds[i] == rounds[..n][i];
    }
  }

  /** Where no flag is set at first, none is later, and every round moves a cheapest node. */
  lemma {:induction false} ClearPlay(start: Table, rounds: seq<Round>, end: Table)
    requires Played(start, rounds, end) && Clear(start.flags)
    ensures Clear(end.flags) && AllCheapest(rounds)
    decreases |rounds|
  {
    hide Fair, CheapestMove, Clear, AfterA, AfterB, AfterFlags;
    if rounds != [] {
      var n := |rounds| - 1;
      ClearPlay(start, rounds[..n], Before(rounds[n]));
      FairCheapest(rounds[n]);
      assert forall i :: 0 <= i < n ==> rounds[i] == rounds[..n][i];
    }
  }

  lemma PlayedNext(start: Table, rounds: seq<Round>, r: Round)
    requires Played(start, rounds, Before(r)) && Fair(r)
    requires forall i :: 0 <= i < |rounds| ==> Fair(rounds[i])
    ensures Played(start, rounds + [r], After(r))
    ensures forall i :: 0 <= i < |rounds| + 1 ==> Fair((rounds + [r])[i])
    ensures TotalCost(rounds + [r]) == TotalCost(rounds) + RoundCost(r)
  {
    hide Fair, RoundCost, After;
    assert (rounds + [r])[..|rounds|] == rounds;
  }

  lemma MoveCostBound(k: nat, na: nat, j: nat, nb: nat)
    requires k < na && j < nb
    ensures 2 * MoveCost(k, na, j, nb) <= na + nb + 4
  {
  }

  /** Twice the instructions t rounds may print on n values. */
  function RoundsBound(n: nat, t: nat): nat {
    if t == 0 then 0 else RoundsBound(n, t - 1) + n + 4
  }

  lemma {:induction false} RoundsBoundIsProduct(n: nat, t: nat)
    ensures RoundsBound(n, t) == (n + 4) * t
  {
    if t > 0 {
      RoundsBoundIsProduct(n, t - 1);
      assert (n + 4) * t == (n + 4) * (t - 1) + n + 4;
    }
  }

  lemma {:induction false} TotalCostBound(start: Table, rounds: seq<Round>, end: Table)
    requires Played(start, rounds, end) && forall i :: 0 <= i < |rounds| ==> Fair(rounds[i])
    ensures 2 * TotalCost(rounds) <= RoundsBound(|start.a| + |start.b|, |rounds|)
    decreases |rounds|
  {
    if rounds != [] {
      var n := |rounds| - 1;
      var r := rounds[n];
      PlayedFair(start, rounds[..n], Before(r));
      TotalCostBound(start, rounds[..n], Before(r));
      MoveCostBound(r.k, |r.a|, r.j, |r.b|);
      hide MoveCost, Played, IsPredecessor, FirstCheapest;
    }
  }

  // The cost that is minimised leaves out the shared turns.

  lemma PrintedAtMost(k: nat, na: nat, j: nat, nb: nat)
    requires k < na && j < nb && na > 1 && nb > 1
    ensures MoveCost(k, na, j, nb) <= Distance(k, na) + Distance(j, nb) + 1
    ensures Distance(k, na) + Distance(j, nb) + 2 <= 2 * MoveCost(k, na, j, nb)
  {
    TurnsIsDistance(k, na);
    TurnsIsDistance(j, nb);
    hide Turns, Distance;
  }

  /** The move of least cost prints less than twice what any other move onto a predecessor would. */
  lemma CheapestWithinTwice(a: seq<int>, b: seq<int>, k: nat, j: nat, i: nat, t: nat)
    requires |a| > 1 && |b| > 1 && CheapestMove(a, b, k, j)
    requires i < |a| && t < |b| && IsPredecessor(b[t], a[i], b)
    ensures MoveCost(k, |a|, j, |b|) < 2 * MoveCost(i, |a|, t, |b|)
  {
    PrintedAtMost(k, |a|, j, |b|);
    PrintedAtMost(i, |a|, t, |b|);
    hide MoveCost, Distance, IsPredecessor;
  }

  /** No move onto a predecessor prints fewer instructions. */
  ghost predicate PrintsLeast(a: seq<int>, b: seq<int>, k: nat, j: nat)
    requires k < |a| && j < |b|
  {
    forall i: nat, t: nat :: i < |a| && t < |b| && IsPredecessor(b[t], a[i], b) ==>
      MoveCost(k, |a|, j, |b|) <= MoveCost(i, |a|, t, |b|)
  }

  /** The two halves med distinguishes: both nodes are brought on top by turns the same way. */
  predicate SameWay(i: nat, na: nat, t: nat, nb: nat) {
    (i < na / 2) == (t < nb / 2)
  }

  lemma Printed(i: nat, na: nat, t: nat, nb: nat)
    requires i < na && t < nb && na > 1 && nb > 1
    ensures MoveCost(i, na, t, nb) ==
      if SameWay(i, na, t, nb) then Max(Distance(i, na), Distance(t, nb)) + 1 else Distance(i, na) + Distance(t, nb) + 1
  {
    TurnsIsDistance(i, na);
    TurnsIsDistance(t, nb);
    hide Turns, Distance;
  }

  /**
   * A move of least cost prints the least exactly when no move whose turns go the same way, and
   * so are shared, needs fewer of them, counted by its larger distance.
   */
  lemma LeastPrintedExactly(a: seq<int>, b: seq<int>, k: nat, j: nat)
    requires |a| > 1 && |b| > 1 && CheapestMove(a, b, k, j)
    ensures PrintsLeast(a, b, k, j) <==>
      forall i: nat, t: nat ::
        i < |a| && t < |b| && IsPredecessor(b[t], a[i], b) && SameWay(i, |a|, t, |b|) ==>
        MoveCost(k, |a|, j, |b|) <= Max(Distance(i, |a|), Distance(t, |b|)) + 1
  {
    PrintedAtMost(k, |a|, j, |b|);
    forall i: nat, t: nat | i < |a| && t < |b|
      ensures MoveCost(i, |a|, t, |b|) ==
        if SameWay(i, |a|, t, |b|) then Max(Distance(i, |a|), Distance(t, |b|)) + 1
        else Distance(i, |a|) + Distance(t, |b|) + 1
    {
      Printed(i, |a|, t, |b|);
    }
    hide MoveCost, Distance, IsPredecessor, SameWay, Max;
  }

  // Two inputs of seven values, as they stand after the three pushes.

  lemma OnePush(prog: seq<Instr>, start: State, x: int, rest: seq<int>, b: seq<int>)
    requires Exec(prog, start) == State([x] + rest, b)
    ensures Exec(prog + [PB], start) == State(rest, [x] + b)
  {
    ExecSnoc(prog, PB, start);
    assert ([x] + rest)[1..] == rest;
    hide Exec;
  }

  lemma ThreePushes(x: int, y: int, z: int, rest: seq<int>)
    ensures Exec([PB, PB, PB], State([x, y, z] + rest, [])) == State(rest, [z, y, x])
  {
    var start := State([x, y, z] + rest, []);
    assert [x, y, z] + rest == [x] + ([y, z] + rest) && [y, z] + rest == [y] + ([z] + rest);
    assert Exec([], start) == start;
    hide Exec, Step;
    OnePush([], start, x, [y, z] + rest, []);
    OnePush([PB], start, y, [z] + rest, [x]);
    OnePush([PB, PB], start, z, rest, [y, x]);
    assert [] + [PB] == [PB] && [PB] + [PB] == [PB, PB] && [PB, PB] + [PB] == [PB, PB, PB];
    assert [x] + [] == [x] && [y] + [x] == [y, x] && [z] + [y, x] == [z, y, x];
  }

  const B7: seq<int> := [10, 0, 5]

  lemma PredecessorsIn7(x: int, v: int)
    requires v > 0 && v !in B7
    ensures IsPredecessor(x, v, B7) <==> x == if v > 10 then 10 else if v > 5 then 5 else 0
  {
    assert B7[0] == 10 && B7[1] == 0 && B7[2] == 5;
    assert 0 in B7 && 5 in B7 && 10 in B7;
  }

  /**
   * The least cost need not print the least: here the program moves 3 and prints three
   * instructions, where moving 7 would print two.
   */
  lemma LeastCostPrintsMore()
    ensures var a := [3, 1, 2, 7];
      && Exec([PB, PB, PB], State([5, 0, 10] + a, [])) == State(a, B7)
      && FirstCheapest(a, B7, 0, 1) && MoveCost(0, 4, 1, 3) == 3
      && IsPredecessor(B7[2], a[3], B7) && MoveCost(3, 4, 2, 3) == 2
  {
    var a := [3, 1, 2, 7];
    ThreePushes(5, 0, 10, a);
    PredecessorsIn7(B7[1], a[0]);
    PredecessorsIn7(B7[2], a[3]);
    forall i: nat, t: nat | i < |a| && t < |B7| && IsPredecessor(B7[t], a[i], B7)
      ensures Distance(0, |a|) + Distance(1, |B7|) <= Distance(i, |a|) + Distance(t, |B7|)
    {
      PredecessorsIn7(B7[t], a[i]);
      hide IsPredecessor;
      assert i == 0 || i == 1 || i == 2 || i == 3;
      assert t == if i == 3 then 2 else 1;
    }
    hide Exec;
  }

  lemma DistancesIn7(i: nat, t: nat)
    requires i < 4 && t < 3
    ensures Distance(i, 4) == (if i == 3 then 1 else i) && Distance(t, 3) == (if t == 0 then 0 else 3 - t)
  {
  }

  lemma SpoiledCosts(a: seq<int>, i: nat, t: nat)
    requires a == [1, 12, 2, 7] && i < 4 && t < 3 && IsPredecessor(B7[t], a[i], B7)
    ensures Distance(i, 4) + Distance(t, 3) == if i == 1 then 1 else if i == 2 then 4 else 2
  {
    PredecessorsIn7(B7[t], a[i]);
    DistancesIn7(i, t);
    hide IsPredecessor, Distance;
    assert i == 0 || i == 1 || i == 2 || i == 3;
  }

  lemma SpoiledLeast(a: seq<int>)
    requires a == [1, 12, 2, 7]
    ensures FirstCheapest(a, B7, 1, 0) && !CheapestMove(a, B7, 0, 1) && IsPredecessor(B7[1], a[0], B7)
  {
    PredecessorsIn7(B7[1], a[0]);
    PredecessorsIn7(B7[0], a[1]);
    hide IsPredecessor, Distance;
    forall i: nat, t: nat | i < 4 && t < 3 && IsPredecessor(B7[t], a[i], B7)
      ensures Distance(i, 4) + Distance(t, 3) == if i == 1 then 1 else if i == 2 then 4 else 2
    {
      SpoiledCosts(a, i, t);
    }
    assert |a| == 4 && |B7| == 3;
    assert Distance(1, 4) + Distance(0, 3) == 1 && Distance(0, 4) + Distance(1, 3) == 2;
  }

  lemma SpoiledRound(r: Round)
    requires r.b == B7 && r.flags == [true, false, false, false] && r.least == 1 && r.k == 0 && r.j == 1 && |r.a| == 4
    requires FirstCheapest(r.a, r.b, 1, 0) && IsPredecessor(r.b[1], r.a[0], r.b)
    ensures Fair(r)
  {
    hide FirstCheapest, IsPredecessor;
    assert r.b[0] == 10 && r.b[1] == 0 && r.b[2] == 5;
  }

  /** One flag left over is enough to spoil a round: here 1 is moved, which was flagged, and not 12. */
  lemma FlagSpoils()
    ensures var a, flags := [1, 12, 2, 7], [true, false, false, false];
      && Exec([PB, PB, PB], State([5, 0, 10] + a, [])) == State(a, B7)
      && Fair(Round(a, B7, flags, 1, 0, 1)) && CheapestMove(a, B7, 1, 0) && !CheapestMove(a, B7, 0, 1)
  {
    var a := [1, 12, 2, 7];
    ThreePushes(5, 0, 10, a);
    SpoiledLeast(a);
    hide Exec, IsPredecessor, CheapestMove, FirstCheapest, Fair;
    SpoiledRound(Round(a, B7, [true, false, false, false], 1, 0, 1));
  }
}
