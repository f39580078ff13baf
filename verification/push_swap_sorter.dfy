// The push_swap program: the instructions that change the two stacks and print
// themselves (push_swap/srcs/actions_1.c, push_swap/srcs/actions_2.c).

module PushSwapSorter {
  import opened PushSwapList
  import opened PushSwapInstr

  function SwapText(c: char): seq<Instr> {
    if c == 'a' then [SA] else if c == 'b' then [SB] else []
  }

  function PushText(c: char): seq<Instr> {
    if c == 'a' then [PA] else if c == 'b' then [PB] else []
  }

  function UpText(c: char): seq<Instr> {
    if c == 'a' then [RA] else if c == 'b' then [RB] else []
  }

  function DownText(c: char): seq<Instr> {
    if c == 'a' then [RRA] else if c == 'b' then [RRB] else []
  }

  class Sorter {
    const a: Stack
    const b: Stack
    var out: seq<Instr>
    ghost const pool: set<Node>
    ghost const start: State

    ghost predicate InPool(nodes: seq<Node>) {
      forall n :: n in nodes ==> n in pool
    }

    ghost predicate Valid()
      reads a, b, pool`next, pool`prev, pool`data
    {
      && a != b && InPool(a.nodes) && InPool(b.nodes)
      && a.Valid() && b.Valid() && Disjoint(a.nodes, b.nodes)
    }

    ghost function Now(): State
      reads a, b
    {
      State(a.vals, b.vals)
    }

    /** The program printed so far takes the start state to the state of the lists. */
    ghost predicate Replays()
      reads this`out, a, b
    {
      Exec(out, start) == Now()
    }

    ghost predicate Ready()
      reads this`out, a, b, pool`next, pool`prev, pool`data
    {
      Valid() && Replays()
    }

    /** c is the letter the program prints for this stack. */
    predicate Names(stack: Stack, c: char) {
      (stack == a && c == 'a') || (stack == b && c == 'b')
    }

    constructor (values: seq<int32>)
      requires values != []
      ensures Valid() && Replays()
      ensures fresh(a) && fresh(b) && fresh(pool)
      ensures a.vals == values && b.vals == [] && out == [] && start == State(values, [])
    {
      var stackA := FillLink(values);
      var stackB := new Stack();
      a, b, out := stackA, stackB, [];
      pool, start := (set n | n in stackA.nodes), State(values, []);
    }

    method Emit(i: Instr)
      modifies this`out
      ensures out == old(out) + [i]
      ensures Exec(out, start) == Step(i, old(Exec(out, start)))
    {
      ExecSnoc(out, i, start);
      out := out + [i];
    }

    /** The line printed for a stack named c; nothing for any other letter. */
    method Say(c: char, forA: Instr, forB: Instr)
      modifies this`out
      ensures out == old(out) + if c == 'a' then [forA] else if c == 'b' then [forB] else []
      ensures c == 'a' ==> Exec(out, start) == Step(forA, old(Exec(out, start)))
      ensures c == 'b' ==> Exec(out, start) == Step(forB, old(Exec(out, start)))
    {
      hide Exec;
      if c == 'a' {
        Emit(forA);
      } else if c == 'b' {
        Emit(forB);
      }
    }

    method SwapTwo(stack: Stack, c: char)
      requires Valid() && (stack == a || stack == b)
      modifies this`out, stack`vals, stack.nodes`data
      ensures Valid()
      ensures stack.vals == SwapTop(old(stack.vals))
      ensures out == old(out) + if |stack.nodes| > 1 then SwapText(c) else []
      ensures old(Replays()) && Names(stack, c) ==> Replays()
    {
      hide Exec, Holds;
      var head := stack.head;
      if head != null && head.next != null {
        ghost var other := if stack == a then b else a;
        assert Disjoint(stack.nodes, other.nodes) && Disjoint(other.nodes, stack.nodes);
        stack.SwapData();
        assert stack.Valid();
        assert Linked(other.nodes);
        assert Holds(other.nodes, other.vals);
        Say(c, SA, SB);
      }
    }

    /** Pushes the top of give onto take; c names the taking stack. */
    method PaPb(give: Stack, take: Stack, c: char)
      requires Valid() && ((give == a && take == b) || (give == b && take == a))
      modifies this`out, a, b, pool`next, pool`prev
      ensures Valid()
      ensures if old(give.nodes) == [] then take.nodes == old(take.nodes) && give.nodes == []
              else give.nodes == old(give.nodes)[1..] && take.nodes == [old(give.nodes)[0]] + old(take.nodes)
      ensures if old(give.nodes) == [] then take.vals == old(take.vals) && give.vals == []
              else give.vals == old(give.vals)[1..] && take.vals == [old(give.vals)[0]] + old(take.vals)
      ensures out == old(out) + if old(give.nodes) == [] then [] else PushText(c)
      ensures old(Replays()) && Names(take, c) ==> Replays()
    {
      hide Exec, Linked, Holds;
      if give.head != null {
        GiveTopLink(give, take);
        Say(c, PA, PB);
      }
    }

    /** The move of ra and rb on one of the two lists; the other keeps its shape. */
    method TurnUp(stack: Stack)
      requires Valid() && (stack == a || stack == b) && |stack.nodes| > 1
      modifies stack, pool`next, pool`prev
      ensures Valid()
      ensures stack.nodes == RotUp(old(stack.nodes)) && stack.vals == RotUp(old(stack.vals))
    {
      hide Exec, Linked, Holds;
      ghost var other := if stack == a then b else a;
      TurnedApart(stack.nodes, other.nodes);
      stack.MoveUp();
      assert stack.Valid();
      assert Linked(other.nodes);
      assert Holds(other.nodes, other.vals);
    }

    method RaRb(stack: Stack, c: char)
      requires Valid() && (stack == a || stack == b)
      modifies this`out, stack, pool`next, pool`prev
      ensures Valid()
      ensures stack.nodes == RotUp(old(stack.nodes)) && stack.vals == RotUp(old(stack.vals))
      ensures out == old(out) + if |stack.nodes| > 1 then UpText(c) else []
      ensures old(Replays()) && Names(stack, c) ==> Replays()
    {
      hide Exec, Linked, Holds, Disjoint;
      var len := stack.Len();
      if stack.head != null && len > 1 {
        ghost var was := Now();
        TurnUp(stack);
        assert Now() == Step(if stack == a then RA else RB, was);
        hide Step;
        Say(c, RA, RB);
      }
    }

    /** The move of rra and rrb. */
    method TurnDown(stack: Stack)
      requires Valid() && (stack == a || stack == b) && |stack.nodes| > 1
      modifies stack, pool`next, pool`prev
      ensures Valid()
      ensures stack.nodes == RotDown(old(stack.nodes)) && stack.vals == RotDown(old(stack.vals))
    {
      hide Exec, Linked, Holds;
      ghost var other := if stack == a then b else a;
      TurnedApart(stack.nodes, other.nodes);
      stack.MoveDown();
      assert stack.Valid();
      assert Linked(other.nodes);
      assert Holds(other.nodes, other.vals);
    }

    method RraRrb(stack: Stack, c: char)
      requires Valid() && (stack == a || stack == b)
      modifies this`out, stack, pool`next, pool`prev
      ensures Valid()
      ensures stack.nodes == RotDown(old(stack.nodes)) && stack.vals == RotDown(old(stack.vals))
      ensures out == old(out) + if |stack.nodes| > 1 then DownText(c) else []
      ensures old(Replays()) && Names(stack, c) ==> Replays()
    {
      hide Exec, Linked, Holds, Disjoint;
      var len := stack.Len();
      if stack.head != null && len > 1 {
        ghost var was := Now();
        TurnDown(stack);
        assert Now() == Step(if stack == a then RRA else RRB, was);
        hide Step;
        Say(c, RRA, RRB);
      }
    }

    method Rr()
      requires Valid()
      modifies this`out, a, b, pool`next, pool`prev
      ensures Valid()
      ensures a.nodes == RotUp(old(a.nodes)) && a.vals == RotUp(old(a.vals))
      ensures b.nodes == RotUp(old(b.nodes)) && b.vals == RotUp(old(b.vals))
      ensures out == old(out) + [RR]
      ensures old(Replays()) ==> Replays()
    {
      hide Exec, RotUp, RotDown, Linked, Holds;
      RaRb(a, 'r');
      RaRb(b, 'r');
      assert out == old(out);
      Emit(RR);
    }

    method Rrr()
      requires Valid()
      modifies this`out, a, b, pool`next, pool`prev
      ensures Valid()
      ensures a.nodes == RotDown(old(a.nodes)) && a.vals == RotDown(old(a.vals))
      ensures b.nodes == RotDown(old(b.nodes)) && b.vals == RotDown(old(b.vals))
      ensures out == old(out) + [RRR]
      ensures old(Replays()) ==> Replays()
    {
      hide Exec, RotUp, RotDown, Linked, Holds;
      RraRrb(a, 'r');
      RraRrb(b, 'r');
      assert out == old(out);
      Emit(RRR);
    }
  }
}
