// The algorithm for more than five values (push_swap/srcs/sorting_2.c) and
// the three-value sort (push_swap/srcs/sorting_1.c:50-77).

module PushSwapBig {
  import opened Collections
  import opened Limits
  import opened PushSwapList
  import opened PushSwapInstr
  import opened PushSwapOrder
  import opened PushSwapScan
  import opened PushSwapSorter
  import opened PushSwapRotate
  import opened PushSwapMove
  import opened PushSwapRound
  import opened PushSwapTrace

  lemma TurnsBound(k: nat, n: nat)
    requires k < n
    ensures 2 * Turns(k < n / 2, k, n) <= n + 1
  {
  }

  /** Four times the instructions the program may print for n values. */
  function Limit(n: nat): nat {
    3 * n * (n + 1)
  }

  /** What three prints for three values that are not sorted. */
  function ThreeProgram(v: seq<int>): (prog: seq<Instr>)
    requires |v| == 3
    ensures |prog| <= 2
  {
    if v[0] < v[2] && v[1] < v[2] then [SA]
    else if v[1] < v[0] && v[2] < v[1] then [SA, RRA]
    else if v[2] < v[0] then (if v[0] < v[1] then [RRA] else [RA])
    else [RRA, SA]
  }

  lemma AscendingThree(v: seq<int>)
    requires |v| == 3
    ensures Ascending(v) <==> v[0] < v[1] < v[2]
  {
  }

  lemma ExecOne(i: Instr, s: State)
    ensures Exec([i], s) == Step(i, s)
  {
    assert [i][..0] == [];
  }

  lemma ExecTwo(i: Instr, j: Instr, s: State)
    ensures Exec([i, j], s) == Step(j, Step(i, s))
  {
    ExecOne(i, s);
    assert [i, j][..1] == [i];
  }

  /** The three values after one instruction on an empty B; PB takes one away. */
  lemma StepThree(i: Instr, x: int, y: int, z: int)
    ensures Step(i, State([x, y, z], [])) ==
      match i
      case SA => State([y, x, z], [])
      case SS => State([y, x, z], [])
      case RA => State([y, z, x], [])
      case RR => State([y, z, x], [])
      case RRA => State([z, x, y], [])
      case RRR => State([z, x, y], [])
      case PB => State([y, z], [x])
      case _ => State([x, y, z], [])
  {
    assert [x, y, z][1..] == [y, z] && [x, y, z][2..] == [z] && [x, y, z][..2] == [x, y];
    assert [y, x] + [z] == [y, x, z] && [y, z] + [x] == [y, z, x] && [z] + [x, y] == [z, x, y];
  }

  lemma ThreeSorts(x: int, y: int, z: int)
    requires x != y && x != z && y != z && !(x < y < z)
    ensures Ascending(Exec(ThreeProgram([x, y, z]), State([x, y, z], [])).a)
  {
    hide Exec, Step;
    StepThree(SA, x, y, z);
    StepThree(RA, x, y, z);
    StepThree(RRA, x, y, z);
    StepThree(RRA, y, x, z);
    StepThree(SA, z, x, y);
    ExecOne(SA, State([x, y, z], []));
    ExecOne(RA, State([x, y, z], []));
    ExecOne(RRA, State([x, y, z], []));
    ExecTwo(SA, RRA, State([x, y, z], []));
    ExecTwo(RRA, SA, State([x, y, z], []));
    AscendingThree(Exec(ThreeProgram([x, y, z]), State([x, y, z], [])).a);
  }

  lemma OneIsTooFew(x: int, y: int, z: int, i: Instr)
    requires x != y && x != z && y != z && !(x < y < z)
    requires Step(i, State([x, y, z], [])).b == [] && Ascending(Step(i, State([x, y, z], [])).a)
    ensures |ThreeProgram([x, y, z])| == 1
  {
    StepThree(i, x, y, z);
    hide Step;
    AscendingThree(Step(i, State([x, y, z], [])).a);
  }

  lemma TooShort(x: int, y: int, z: int, prog: seq<Instr>)
    requires x != y && x != z && y != z && !(x < y < z) && |prog| <= 1
    requires Exec(prog, State([x, y, z], [])).b == [] && Ascending(Exec(prog, State([x, y, z], [])).a)
    ensures |prog| == 1 && |ThreeProgram([x, y, z])| == 1
  {
    var start := State([x, y, z], []);
    AscendingThree([x, y, z]);
    if prog == [] {
      assert false;
    } else {
      hide Exec, Ascending, Step, ThreeProgram;
      assert prog == [prog[0]];
      ExecOne(prog[0], start);
      OneIsTooFew(x, y, z, prog[0]);
    }
  }

  /** Three values are sorted by as few instructions as any program needs. */
  lemma ThreeIsFewest(x: int, y: int, z: int, prog: seq<Instr>)
    requires x != y && x != z && y != z && !(x < y < z)
    requires Exec(prog, State([x, y, z], [])).b == [] && Ascending(Exec(prog, State([x, y, z], [])).a)
    ensures Ascending(Exec(ThreeProgram([x, y, z]), State([x, y, z], [])).a)
    ensures |ThreeProgram([x, y, z])| <= |prog|
  {
    hide *;
    ThreeSorts(x, y, z);
    if |prog| <= 1 {
      TooShort(x, y, z, prog);
    }
  }

  method Three(s: Sorter)
    requires s.Ready() && Simple(s.start)
    requires |s.a.nodes| == 3 && !Ascending(s.a.vals)
    modifies s`out, s.a, s.pool`next, s.pool`prev, s.pool`data
    ensures s.Ready() && |s.a.nodes| == 3 && Ascending(s.a.vals)
    ensures s.out == old(s.out) + ThreeProgram(old(s.a.vals))
  {
    hide Exec, Linked, Holds, Disjoint, IsMax, IsMin, Ascending;
    ExecDistinct(s.out, s.start);
    ThreeValues(s.a);
    AscendingThree(s.a.vals);
    var big := FindBiggest(s.a);
    var small := FindSmallest(s.a);
    var last := s.a.Last();
    if last.data == big {
      s.SwapTwo(s.a, 'a');
    } else if last.data == small {
      if s.a.head.data == big {
        s.SwapTwo(s.a, 'a');
      }
      s.RraRrb(s.a, 'a');
    } else if s.a.head.data == small {
      s.RraRrb(s.a, 'a');
      s.SwapTwo(s.a, 'a');
    } else if s.a.head.data == big && s.a.head.next.data == small {
      s.RaRb(s.a, 'a');
    }
    AscendingThree(s.a.vals);
  }

  lemma ThreeValues(a: Stack)
    requires a.Valid() && |a.nodes| == 3
    ensures a.head == a.nodes[0] && a.nodes[0].next == a.nodes[1]
    ensures a.nodes[0].data == a.vals[0] && a.nodes[1].data == a.vals[1] && a.nodes[2].data == a.vals[2]
    ensures forall x :: IsMax(x, a.vals) ==> x in a.vals && a.vals[0] <= x && a.vals[1] <= x && a.vals[2] <= x
    ensures forall x :: IsMin(x, a.vals) ==> x in a.vals && x <= a.vals[0] && x <= a.vals[1] && x <= a.vals[2]
  {
    assert a.vals[0] in a.vals && a.vals[1] in a.vals && a.vals[2] in a.vals;
  }

  /** The first loop of step_one. */
  method PushThree(s: Sorter)
    requires s.Ready() && |s.a.nodes| >= 3 && s.b.nodes == []
    modifies s`out, s.a, s.b, s.pool`next, s.pool`prev
    ensures s.Ready()
    ensures |s.b.nodes| == 3 && s.a.nodes == old(s.a.nodes)[3..] && s.a.vals == old(s.a.vals)[3..]
    ensures |s.out| == old(|s.out|) + 3
  {
    hide Exec, Linked, Holds, Disjoint;
    var len := s.b.Len();
    while len != 3
      invariant s.Ready() && len == |s.b.nodes| <= 3
      invariant s.a.nodes == old(s.a.nodes)[len..] && s.a.vals == old(s.a.vals)[len..]
      invariant |s.out| == old(|s.out|) + len
      decreases 3 - len
    {
      s.PaPb(s.a, s.b, 'b');
      len := s.b.Len();
    }
  }

  lemma FlagsTail(nodes: seq<Node>, k: nat)
    requires k <= |nodes|
    ensures Flags(nodes[k..]) == Flags(nodes)[k..]
  {
  }

  ghost function TableOf(s: Sorter): Table
    reads s, s.a, s.b, s.a.nodes`cheap
  {
    Table(s.a.vals, s.b.vals, Flags(s.a.nodes))
  }

  /** The loop of step_one; rounds records what it does. */
  method StepOneLoop(s: Sorter) returns (ghost rounds: seq<Round>)
    requires s.Ready() && Simple(s.start)
    requires |s.a.nodes| >= 3 && |s.b.nodes| >= 3 && |s.a.nodes| + |s.b.nodes| <= INT_MAX
    modifies s`out, s.a, s.b, s.pool
    ensures s.Ready() && |s.a.nodes| >= 3 && (|s.a.nodes| == 3 || NonDescending(s.a.vals))
    ensures Played(old(TableOf(s)), rounds, TableOf(s))
    ensures forall i :: 0 <= i < |rounds| ==> Fair(rounds[i])
    ensures |s.out| == old(|s.out|) + TotalCost(rounds)
  {
    hide s.InPool, Exec, Linked, Holds, Disjoint, Rot, MoveCost, Simple, IsPredecessor, CheapestMove, Distinct;
    hide NonDescending, Ascending, Flags, Fair;
    ghost var start := TableOf(s);
    rounds := [];
    assert Played(start, rounds, start);
    hide Played, TotalCost;
    var more := Unfinished(s.a);
    PlayedFair(start, rounds, start);
    assert TotalCost(rounds) == 0 by { NoRounds(); }
    while more
      invariant s.Ready() && |s.a.nodes| >= 3 && |s.b.nodes| >= 3 && |s.a.nodes| + |s.b.nodes| <= INT_MAX
      invariant more <==> |s.a.nodes| > 3 && !NonDescending(s.a.vals)
      invariant Played(start, rounds, TableOf(s)) && forall i :: 0 <= i < |rounds| ==> Fair(rounds[i])
      invariant |s.out| == old(|s.out|) + TotalCost(rounds)
      decreases |s.a.nodes|
    {
      ghost var r := StepOneRound(s);
      PlayedNext(start, rounds, r);
      rounds := rounds + [r];
      more := Unfinished(s.a);
    }
  }

  lemma NoRounds()
    ensures TotalCost([]) == 0
  {
  }

  /**
   * Three pushes, then the rounds, and nothing else printed. Every round is a cheapest one
   * exactly when no flag left over spoils one, so always when no flag was set.
   */
  method StepOne(s: Sorter) returns (ghost rounds: seq<Round>)
    requires s.Ready() && Simple(s.start)
    requires 5 < |s.a.nodes| <= INT_MAX && s.b.nodes == []
    modifies s`out, s.a, s.b, s.pool
    ensures s.Ready()
    ensures 3 <= |s.a.nodes| && 3 <= |s.b.nodes| && |s.a.nodes| + |s.b.nodes| == old(|s.a.nodes|)
    ensures |s.a.nodes| == 3 || NonDescending(s.a.vals)
    ensures 2 * (|s.out| - old(|s.out|)) <= 6 + RoundsBound(old(|s.a.nodes|), |s.b.nodes| - 3)
    ensures |rounds| == |s.b.nodes| - 3 && forall i :: 0 <= i < |rounds| ==> Fair(rounds[i])
    ensures |s.out| == old(|s.out|) + 3 + TotalCost(rounds)
    ensures AllCheapest(rounds) <==> NoneSpoiled(rounds)
    ensures old(Clear(Flags(s.a.nodes))) ==> AllCheapest(rounds)
  {
    hide s.InPool, Exec, Linked, Holds, Disjoint, Rot, Simple, Distinct;
    hide NonDescending, Flags, RoundsBound, Played, TotalCost, AllCheapest, NoneSpoiled, Fair;
    FlagsTail(s.a.nodes, 3);
    ghost var clear := Clear(Flags(s.a.nodes));
    PushThree(s);
    ghost var start := TableOf(s);
    assert clear ==> Clear(start.flags);
    rounds := StepOneLoop(s);
    PlayedFair(start, rounds, TableOf(s));
    TotalCostBound(start, rounds, TableOf(s));
    AllCheapestExactly(rounds);
    if clear {
      ClearPlay(start, rounds, TableOf(s));
    }
  }
}
