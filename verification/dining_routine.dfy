// What a philosopher prints and counts: its lines come in the order of the routine, and its meals
// are those it announced (philosopher/philo_routine.c, philosopher/philo_utils.c:57-79).

module DiningRoutine {
  import opened DiningModel
  import opened DiningSafety

  /** What philosopher i has printed, the line of its death aside. */
  function Said(log: seq<Line>, i: nat): seq<What> {
    if log == [] then []
    else
      var last := log[|log| - 1];
      Said(log[..|log| - 1], i) + if last.who == i && last.what != Died then [last.what] else []
  }

  lemma {:induction false} SaidAppend(log: seq<Line>, line: Line, i: nat)
    ensures Said(log + [line], i) == Said(log, i) + if line.who == i && line.what != Died then [line.what] else []
  {
    assert (log + [line])[..|log|] == log;
  }

  /** The k-th line of the routine, over and over: two forks, eating, sleeping, thinking. */
  function Routine(k: nat): What {
    var r := k % 5;
    if r < 2 then TookFork else if r == 2 then Eating else if r == 3 then Sleeping else Thinking
  }

  predicate InOrder(said: seq<What>) {
    forall k :: 0 <= k < |said| ==> said[k] == Routine(k)
  }

  /** Lines printed at this place beyond five for every meal counted. */
  function Offset(pc: PC): int {
    match pc
    case SayTook1(p) => if p.Leave? then 1 else 0
    case Take2 => 1
    case SayTook2(p) => if p.Leave? then 2 else 1
    case SayEating(p) => if p.Leave? then 3 else 2
    case MealLock => 3
    case MealWrite => 3
    case MealUnlock => -2
    case EatNap(_) => -2
    case Drop1 => -2
    case Drop2 => -2
    case SaySleeping(p) => if p.Leave? then -1 else -2
    case SleepNap(_) => -1
    case SayThinking(p) => if p.Leave? then 0 else -1
    case _ => 0
  }

  predicate Heard(k: Check) {
    k == Answer(true)
  }

  /** The philosopher has read a flag as set. */
  predicate HeardStop(pc: PC) {
    match pc
    case Test(k) => Heard(k)
    case SayTook1(p) => HeardInPrint(p)
    case SayTook2(p) => HeardInPrint(p)
    case SayEating(p) => HeardInPrint(p)
    case SaySleeping(p) => HeardInPrint(p)
    case SayThinking(p) => HeardInPrint(p)
    case EatNap(z) => z.Peek? && Heard(z.k)
    case SleepNap(z) => z.Peek? && Heard(z.k)
    case ThinkNap(z) => z.Peek? && Heard(z.k)
    case Returned => true
    case _ => false
  }

  predicate HeardInPrint(p: Printing) {
    p == Write(true) || (p.Look? && Heard(p.k))
  }

  /**
   * The lines come in order, five for every meal and those of the round begun, unless a flag has
   * been set and this philosopher prints no more.
   */
  predicate Paced(c: Config, s: State, i: nat)
    requires Shape(c, s) && i < c.n
  {
    var said, due := Said(s.log, i), 5 * s.eaten[i] + Offset(s.pcs[i]);
    && InOrder(said) && (HeardStop(s.pcs[i]) ==> Stop(s))
    && (|said| == due || (Stop(s) && !Pending(s.pcs[i]) && |said| <= due))
  }

  /** How a step of the routine moves the offset, and that what it prints is next in order. */
  lemma OffsetMoves(i: nat, pc: PC, stop: bool, again: bool)
    requires pc != Unborn && pc != Returned
    ensures var next := PNext(pc, stop, again);
      && Offset(next) == Offset(pc) + (if pc == MealWrite then -5 else if Writes(pc) then 1 else 0)
      && (PLines(i, pc) == if Pending(pc) && Writes(pc) then [Line(i, Routine(Offset(pc) + 5))] else [])
      && (HeardStop(next) ==> stop || HeardStop(pc))
      && (Pending(next) ==> !stop || Pending(pc))
      && (Writes(pc) ==> Pending(pc) || HeardStop(pc)) && Offset(pc) + 5 >= 0
      && (Writes(pc) ==> !Pending(next))
  {
  }

  /** At the printf of a print. */
  predicate Writes(pc: PC) {
    match pc
    case SayTook1(p) => p.Write?
    case SayTook2(p) => p.Write?
    case SayEating(p) => p.Write?
    case SaySleeping(p) => p.Write?
    case SayThinking(p) => p.Write?
    case _ => false
  }

  lemma OthersSay(i: nat, t: nat, pc: PC, log: seq<Line>)
    requires t != i
    ensures Said(log + PLines(t, pc), i) == Said(log, i)
  {
    assert log + [] == log;
    if PLines(t, pc) != [] {
      SaidAppend(log, PLines(t, pc)[0], i);
      assert PLines(t, pc) == [PLines(t, pc)[0]];
    }
    hide Said;
  }

  lemma MainSays(mon: MPC, i: nat, log: seq<Line>)
    ensures Said(log + MLines(mon), i) == Said(log, i)
  {
    assert log + [] == log;
    if MLines(mon) != [] {
      SaidAppend(log, MLines(mon)[0], i);
      assert MLines(mon) == [MLines(mon)[0]];
    }
    hide Said;
  }

  lemma InOrderNext(said: seq<What>)
    requires InOrder(said)
    ensures InOrder(said + [Routine(|said|)])
  {
  }

  lemma RoutineTurns(meals: nat, at: int)
    requires -2 <= at && 5 * meals + at >= 0
    ensures Routine(5 * meals + at) == Routine(at + 5)
  {
    assert (5 * meals + at) % 5 == (at + 5) % 5;
  }

  lemma OffsetLow(pc: PC)
    ensures -2 <= Offset(pc) <= 3
  {
  }

  lemma NeverDied(k: nat)
    ensures Routine(k) != Died
  {
  }

  /** What the step adds to the lines: nothing, or the next one of the routine. */
  lemma SaysNext(c: Config, s: State, i: nat, stop: bool, again: bool)
    requires Shape(c, s) && i < c.n && Paced(c, s, i) && s.pcs[i] != Unborn && s.pcs[i] != Returned
    ensures var pc, said, now := s.pcs[i], Said(s.log, i), Said(s.log + PLines(i, s.pcs[i]), i);
      InOrder(now) && |now| == |said| + if Pending(pc) && Writes(pc) then 1 else 0
  {
    var pc, said := s.pcs[i], Said(s.log, i);
    OffsetMoves(i, pc, stop, again);
    OffsetLow(pc);
    hide PNext, PLines, Offset, Pending, HeardStop, Writes, Said, InOrder, Routine, Stop;
    if Pending(pc) && Writes(pc) {
      assert |said| == 5 * s.eaten[i] + Offset(pc);
      RoutineTurns(s.eaten[i], Offset(pc));
      SaidAppend(s.log, Line(i, Routine(Offset(pc) + 5)), i);
      NeverDied(Offset(pc) + 5);
      InOrderNext(said);
    } else {
      assert s.log + [] == s.log;
    }
  }

  lemma SameStop(s: State, t: State)
    requires t.died == s.died && t.allAte == s.allAte
    ensures Stop(t) == Stop(s)
  {
  }

  lemma PacedIf(c: Config, s: State, i: nat, due: int)
    requires Shape(c, s) && i < c.n && due == 5 * s.eaten[i] + Offset(s.pcs[i])
    requires InOrder(Said(s.log, i)) && (HeardStop(s.pcs[i]) ==> Stop(s))
    requires |Said(s.log, i)| == due || (Stop(s) && !Pending(s.pcs[i]) && |Said(s.log, i)| <= due)
    ensures Paced(c, s, i)
  {
  }

  lemma StepPacedSelf(c: Config, s: State, k: Pick)
    requires Shape(c, s) && Allowed(c, s, k) && k.t < c.n && Paced(c, s, k.t)
    ensures Shape(c, Step(c, s, k)) && Paced(c, Step(c, s, k), k.t)
  {
    PFacts(c, s, k);
    OffsetMoves(k.t, s.pcs[k.t], Stop(s), k.again);
    SaysNext(c, s, k.t, Stop(s), k.again);
    var t, pc := Step(c, s, k), s.pcs[k.t];
    hide Step, PNext, PAct, PLines, Owners, Offset, Pending, HeardStop, Writes, MonInRange;
    hide Said, InOrder, Routine, Stop;
    assert Stop(t) == Stop(s) by { SameStop(s, t); }
    PacedIf(c, t, k.t, 5 * s.eaten[k.t] + Offset(pc) + if Writes(pc) then 1 else 0);
  }

  lemma StepPacedOther(c: Config, s: State, k: Pick, i: nat)
    requires Shape(c, s) && Allowed(c, s, k) && k.t != i && i < c.n && Paced(c, s, i)
    requires Spawning(c, s, i)
    ensures Shape(c, Step(c, s, k)) && Paced(c, Step(c, s, k), i)
  {
    if k.t < c.n {
      PFacts(c, s, k);
      OthersSay(i, k.t, s.pcs[k.t], s.log);
    } else {
      MFacts(c, s, k);
      MainSays(s.mon, i, s.log);
    }
    hide Step, PNext, PAct, PLines, MNext, MAct, MLines, Owners, Pending, MonInRange, Said, InOrder;
  }

  /** Main starts a thread only once. */
  predicate Spawning(c: Config, s: State, i: nat)
    requires Shape(c, s) && i < c.n
  {
    s.mon == Spawn(i) ==> s.pcs[i] == Unborn
  }

  lemma SpawnsOnce(c: Config, s: State, i: nat)
    requires Inv(c, s) && i < c.n
    ensures Spawning(c, s, i)
  {
  }

  lemma RunBegins(c: Config, run: seq<State>, picks: seq<Pick>, i: nat)
    requires IsRun(c, run, picks) && i < c.n
    ensures |run| == |picks| + 1 && Shape(c, run[0]) && Paced(c, run[0], i)
  {
  }

  lemma PacedNext(c: Config, run: seq<State>, picks: seq<Pick>, k: nat, i: nat)
    requires IsRun(c, run, picks) && k < |picks| && i < c.n && Shape(c, run[k]) && Paced(c, run[k], i)
    ensures |run| == |picks| + 1 && Shape(c, run[k + 1]) && Paced(c, run[k + 1], i)
  {
    RunInv(c, run, picks, k);
    RunStep(c, run, picks, k);
    RunShape(c, run, picks, k + 1);
    SpawnsOnce(c, run[k], i);
    hide *;
    if picks[k].t == i {
      StepPacedSelf(c, run[k], picks[k]);
    } else {
      StepPacedOther(c, run[k], picks[k], i);
    }
  }

  lemma {:induction false} RunPaced(c: Config, run: seq<State>, picks: seq<Pick>, k: nat, i: nat)
    requires IsRun(c, run, picks) && k <= |picks| && i < c.n
    ensures |run| == |picks| + 1 && Shape(c, run[k]) && Paced(c, run[k], i)
  {
    RunShape(c, run, picks, k);
    hide *;
    if k == 0 {
      RunBegins(c, run, picks, i);
    } else {
      RunPaced(c, run, picks, k - 1, i);
      PacedNext(c, run, picks, k - 1, i);
    }
  }

  /**
   * In every state of every run a philosopher has printed the lines of its routine in order. Until a
   * flag is set these are five for every meal counted and those of the round begun; after that it may
   * fall silent.
   */
  lemma LinesFollowMeals(c: Config, run: seq<State>, picks: seq<Pick>, k: nat, i: nat)
    requires IsRun(c, run, picks) && k <= |picks| && i < c.n
    ensures |run| == |picks| + 1 && Shape(c, run[k])
    ensures var said, due := Said(run[k].log, i), 5 * run[k].eaten[i] + Offset(run[k].pcs[i]);
      && InOrder(said) && |said| <= due && (!Stop(run[k]) ==> |said| == due)
  {
    RunPaced(c, run, picks, k, i);
    hide IsRun;
  }

  /** ft_usleep returns when its time is over or a flag is set, and asks for the flags in every pass. */
  lemma NapEnds(z: Nap, stop: bool, again: bool)
    ensures NapNext(z, stop, again) == Over <==> z == Tail || z == Peek(Answer(true))
    ensures z == Head ==> NapNext(z, stop, again) == On(if again then Peek(Ask) else Tail)
    ensures z == Peek(Ask) ==> NapNext(z, stop, again) == On(Peek(Read))
    ensures z == Peek(Read) ==> NapNext(z, stop, again) == On(Peek(Answer(stop)))
    ensures z == Peek(Answer(false)) ==> NapNext(z, stop, again) == On(Head)
  {
  }

  /**
   * The forks are put down only when the eating time is over, thinking is announced only when the
   * sleeping time is, and a new round begins only when the thinking time is, or a flag has been read.
   */
  lemma NapsFirst(pc: PC, stop: bool, again: bool)
    requires pc != Unborn && pc != Returned
    ensures PNext(pc, stop, again) == Drop1 ==> pc == EatNap(Tail) || pc == EatNap(Peek(Answer(true)))
    ensures PNext(pc, stop, again) == SayThinking(Queue) ==> pc == SleepNap(Tail) || pc == SleepNap(Peek(Answer(true)))
    ensures PNext(pc, stop, again) == Test(Ask) ==>
      pc == Born || pc == ThinkNap(Tail) || pc == ThinkNap(Peek(Answer(true)))
    ensures PNext(pc, stop, again) == Returned <==> pc == Test(Answer(true))
  {
  }

  /** A meal counts one and sets the time to the clock; no other step touches either. */
  lemma MealCounts(c: Config, run: seq<State>, picks: seq<Pick>, k: nat, i: nat)
    requires IsRun(c, run, picks) && k < |picks| && i < c.n
    ensures |run| == |picks| + 1 && Shape(c, run[k]) && Shape(c, run[k + 1])
    ensures if picks[k].t == i && run[k].pcs[i] == MealWrite
      then run[k + 1].eaten[i] == run[k].eaten[i] + 1 && run[k + 1].last[i] == run[k + 1].now
      else run[k + 1].eaten[i] == run[k].eaten[i] && run[k + 1].last[i] == run[k].last[i]
  {
    RunShape(c, run, picks, k + 1);
    RunStep(c, run, picks, k);
    hide IsRun;
    if picks[k].t < c.n {
      PFacts(c, run[k], picks[k]);
    } else {
      MFacts(c, run[k], picks[k]);
    }
    hide Step;
  }
}
