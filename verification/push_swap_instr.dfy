// The instruction set push_swap prints, with an interpreter of its own on two
// plain sequences. Nothing here knows about the linked lists.

module PushSwapInstr {
  import opened Collections
  import opened PushSwapList

  datatype Instr = SA | SB | SS | PA | PB | RA | RB | RR | RRA | RRB | RRR

  datatype State = State(a: seq<int>, b: seq<int>)

  function Step(i: Instr, s: State): (t: State) {
    match i
    case SA => s.(a := SwapTop(s.a))
    case SB => s.(b := SwapTop(s.b))
    case SS => State(SwapTop(s.a), SwapTop(s.b))
    case PA => if s.b == [] then s else State([s.b[0]] + s.a, s.b[1..])
    case PB => if s.a == [] then s else State(s.a[1..], [s.a[0]] + s.b)
    case RA => s.(a := RotUp(s.a))
    case RB => s.(b := RotUp(s.b))
    case RR => State(RotUp(s.a), RotUp(s.b))
    case RRA => s.(a := RotDown(s.a))
    case RRB => s.(b := RotDown(s.b))
    case RRR => State(RotDown(s.a), RotDown(s.b))
  }

  /** The instructions on B are those on A with the stacks exchanged. */
  function Exchanged(s: State): State {
    State(s.b, s.a)
  }

  /**
   * The instruction set on stacks written top first: s exchanges the two top values, p takes the top
   * of the other stack, r takes the top to the bottom, rr the bottom to the top; the double
   * instructions do it to both.
   */
  lemma InstructionSet(x: int, y: int, rest: seq<int>, b: seq<int>)
    ensures Step(SA, State([x, y] + rest, b)) == State([y, x] + rest, b)
    ensures Step(PB, State([x] + rest, b)) == State(rest, [x] + b)
    ensures Step(RA, State([x] + rest, b)) == State(rest + [x], b)
    ensures Step(RRA, State(rest + [x], b)) == State([x] + rest, b)
    ensures Step(SA, State([], b)) == Step(RA, State([], b)) == Step(RRA, State([], b)) == State([], b)
    ensures Step(SA, State([x], b)) == State([x], b) && Step(PB, State([], b)) == State([], b)
  {
    assert ([x, y] + rest)[2..] == rest && ([x] + rest)[1..] == rest && (rest + [x])[..|rest|] == rest;
    if rest == [] {
      assert [x] + rest == rest + [x] == [x];
    }
  }

  lemma InstructionsOnB(s: State)
    ensures Step(SB, s) == Exchanged(Step(SA, Exchanged(s))) && Step(PA, s) == Exchanged(Step(PB, Exchanged(s)))
    ensures Step(RB, s) == Exchanged(Step(RA, Exchanged(s))) && Step(RRB, s) == Exchanged(Step(RRA, Exchanged(s)))
    ensures Step(SS, s) == Step(SB, Step(SA, s)) && Step(RR, s) == Step(RB, Step(RA, s))
    ensures Step(RRR, s) == Step(RRB, Step(RRA, s))
  {
  }

  /** Replays a printed program. */
  function Exec(prog: seq<Instr>, s: State): (t: State) {
    if prog == [] then s
    else Step(prog[|prog| - 1], Exec(prog[..|prog| - 1], s))
  }

  lemma ExecSnoc(prog: seq<Instr>, i: Instr, s: State)
    ensures Exec(prog + [i], s) == Step(i, Exec(prog, s))
  {
    assert (prog + [i])[..|prog|] == prog;
  }

  ghost function Contents(s: State): multiset<int> {
    multiset(s.a) + multiset(s.b)
  }

  lemma TurnKeeps<T>(s: seq<T>, t: seq<T>)
    ensures multiset(s + t) == multiset(t + s)
  {
  }

  lemma SwapKeeps<T>(s: seq<T>)
    ensures multiset(SwapTop(s)) == multiset(s)
  {
    if |s| > 1 {
      assert s == [s[0], s[1]] + s[2..];
    }
  }

  lemma UpKeeps<T>(s: seq<T>)
    ensures multiset(RotUp(s)) == multiset(s)
  {
    if |s| > 1 {
      TurnKeeps([s[0]], s[1..]);
      assert s == [s[0]] + s[1..];
    }
  }

  lemma DownKeeps<T>(s: seq<T>)
    ensures multiset(RotDown(s)) == multiset(s)
  {
    if |s| > 1 {
      TurnKeeps(s[..|s| - 1], [s[|s| - 1]]);
      assert s == s[..|s| - 1] + [s[|s| - 1]];
    }
  }

  lemma RearrangeKeeps<T>(s: seq<T>)
    ensures multiset(RotUp(s)) == multiset(s)
    ensures multiset(RotDown(s)) == multiset(s)
    ensures multiset(SwapTop(s)) == multiset(s)
  {
    hide SwapTop, RotUp, RotDown;
    SwapKeeps(s);
    UpKeeps(s);
    DownKeeps(s);
  }

  lemma PushKeeps<T>(give: seq<T>, take: seq<T>)
    requires give != []
    ensures multiset(give[1..]) + multiset([give[0]] + take) == multiset(give) + multiset(take)
  {
    assert give == [give[0]] + give[1..];
  }

  lemma StepKeeps(i: Instr, s: State)
    ensures Contents(Step(i, s)) == Contents(s)
  {
    match i
    case PA => if s.b != [] {
        PushKeeps(s.b, s.a);
        assert Contents(Step(i, s)) == multiset(s.b[1..]) + multiset([s.b[0]] + s.a);
      }
    case PB => if s.a != [] { PushKeeps(s.a, s.b); }
    case _ => RearrangeKeeps(s.a); RearrangeKeeps(s.b);
  }

  /** Whatever is printed, the two stacks hold the values they started with. */
  lemma {:induction false} ExecKeeps(prog: seq<Instr>, s: State)
    ensures Contents(Exec(prog, s)) == Contents(s)
  {
    if prog != [] {
      ExecKeeps(prog[..|prog| - 1], s);
      StepKeeps(prog[|prog| - 1], Exec(prog[..|prog| - 1], s));
    }
  }

  ghost function Count(s: State, x: int): nat {
    multiset(s.a)[x] + multiset(s.b)[x]
  }

  /** No value occurs twice on the two stacks. */
  ghost predicate Simple(s: State) {
    forall x :: Count(s, x) <= 1
  }

  lemma DistinctIsSimple(s: seq<int>)
    requires Distinct(s)
    ensures Simple(State(s, []))
  {
    forall x ensures Count(State(s, []), x) <= 1 {
      OnceEach(s, x);
    }
  }

  lemma {:induction false} OnceEach(s: seq<int>, x: int)
    requires Distinct(s)
    ensures multiset(s)[x] <= 1
    ensures x in s <==> multiset(s)[x] == 1
  {
    if s != [] {
      var n := |s| - 1;
      OnceEach(s[..n], x);
      assert s == s[..n] + [s[n]];
      assert x == s[n] ==> x !in s[..n];
    }
  }

  lemma TwiceCounts(s: seq<int>, i: nat, j: nat)
    requires i < j < |s| && s[i] == s[j]
    ensures multiset(s)[s[i]] >= 2
  {
    assert s == s[..j] + s[j..];
    assert s[i] in s[..j] && s[j] in s[j..];
  }

  lemma SimpleIsDistinct(s: State)
    requires Simple(s)
    ensures Distinct(s.a) && Distinct(s.b)
    ensures forall x :: x in s.a ==> x !in s.b
  {
    forall i, j | 0 <= i < j < |s.a| ensures s.a[i] != s.a[j] {
      assert Count(s, s.a[i]) <= 1;
      if s.a[i] == s.a[j] {
        TwiceCounts(s.a, i, j);
      }
    }
    forall i, j | 0 <= i < j < |s.b| ensures s.b[i] != s.b[j] {
      assert Count(s, s.b[i]) <= 1;
      if s.b[i] == s.b[j] {
        TwiceCounts(s.b, i, j);
      }
    }
    forall x | x in s.a ensures x !in s.b {
      assert x in multiset(s.a) && Count(s, x) <= 1;
      assert x in s.b ==> x in multiset(s.b);
    }
  }

  /** Replaying a program from a simple state ends with distinct values everywhere. */
  lemma ExecDistinct(prog: seq<Instr>, s: State)
    requires Simple(s)
    ensures Distinct(Exec(prog, s).a) && Distinct(Exec(prog, s).b)
    ensures forall x :: x in Exec(prog, s).a ==> x !in Exec(prog, s).b
  {
    ExecKeeps(prog, s);
    forall x ensures Count(Exec(prog, s), x) <= 1 {
      assert Count(Exec(prog, s), x) == Contents(Exec(prog, s))[x] == Contents(s)[x] == Count(s, x);
    }
    SimpleIsDistinct(Exec(prog, s));
  }
}
