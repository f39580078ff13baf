// Once a stop flag is set: every step brings the end nearer, and the joins complete.

module DiningStop {
  import opened DiningModel
  import opened DiningSafety

  // The steps a thread can still make after the flags are set, at most. A check that
  // read the flags before they were set may still answer false once.

  function CheckLeft(k: Check): nat {
    match k
    case Ask => 3
    case Read => 2
    case Answer(_) => 1
  }

  function PrintLeft(p: Printing): nat {
    match p
    case Queue => 6
    case Look(k) => 2 + CheckLeft(k)
    case Write(_) => 2
    case Leave => 1
  }

  function NapLeft(z: Nap): nat {
    match z
    case Peek(Answer(false)) => 5
    case Head => 4
    case Peek(k) => CheckLeft(k)
    case Tail => 1
  }

  function PLeft(pc: PC): nat {
    match pc
    case Unborn => 5
    case Born => 4
    case Test(Answer(false)) => 54
    case Test(k) => CheckLeft(k)
    case Take1 => 53
    case SayTook1(p) => 46 + PrintLeft(p)
    case Take2 => 46
    case SayTook2(p) => 39 + PrintLeft(p)
    case SayEating(p) => 33 + PrintLeft(p)
    case MealLock => 33
    case MealWrite => 32
    case MealUnlock => 31
    case EatNap(z) => 25 + NapLeft(z)
    case Drop1 => 25
    case Drop2 => 24
    case SaySleeping(p) => 17 + PrintLeft(p)
    case SleepNap(z) => 13 + NapLeft(z)
    case SayThinking(p) => 7 + PrintLeft(p)
    case ThinkNap(z) => 3 + NapLeft(z)
    case Returned => 0
  }

  function MLeft(n: nat, mon: MPC): nat {
    match mon
    case DieUnlock(_) => n + 6
    case DieRelease(_) => n + 5
    case DiedAsk => n + 4
    case DiedRead => n + 3
    case DiedAnswer(_) => n + 2
    case AllUnlock => n + 2
    case Join(i) => if i <= n then n - i + 1 else 0
    case _ => 0
  }

  function SumLeft(pcs: seq<PC>): nat {
    if pcs == [] then 0 else SumLeft(pcs[..|pcs| - 1]) + PLeft(pcs[|pcs| - 1])
  }

  lemma {:induction false} SumLeftUpdate(pcs: seq<PC>, t: nat, pc: PC)
    requires t < |pcs|
    ensures SumLeft(pcs[t := pc]) + PLeft(pcs[t]) == SumLeft(pcs) + PLeft(pc)
  {
    hide PLeft;
    var n := |pcs| - 1;
    if t < n {
      SumLeftUpdate(pcs[..n], t, pc);
      assert pcs[t := pc][..n] == pcs[..n][t := pc];
    } else {
      assert pcs[t := pc][..n] == pcs[..n];
    }
  }

  lemma {:induction false} SumLeftBound(pcs: seq<PC>)
    ensures SumLeft(pcs) <= 54 * |pcs|
  {
    if pcs != [] {
      SumLeftBound(pcs[..|pcs| - 1]);
      PLeftBound(pcs[|pcs| - 1]);
    }
  }

  lemma PLeftBound(pc: PC)
    ensures PLeft(pc) <= 54
  {
  }

  lemma PrintLeftDrops(p: Printing)
    requires !p.Leave?
    ensures PrintLeft(PrintNext(p, true)) < PrintLeft(p) && PrintLeft(Leave) == 1 && PrintLeft(Queue) == 6
  {
  }

  lemma NapLeftDrops(z: Nap, again: bool)
    ensures match NapNext(z, true, again) case On(y) => NapLeft(y) < NapLeft(z) case Over => NapLeft(z) >= 1
    ensures NapLeft(Head) == 4
  {
  }

  /** A philosopher's every step counts down once a flag is set. */
  lemma PLeftDrops(pc: PC, again: bool)
    requires pc != Unborn && pc != Returned
    ensures PLeft(PNext(pc, true, again)) < PLeft(pc)
  {
    match pc
    case SayTook1(p) => if !p.Leave? { PrintLeftDrops(p); hide PrintLeft, PrintNext; }
    case SayTook2(p) => if !p.Leave? { PrintLeftDrops(p); hide PrintLeft, PrintNext; }
    case SayEating(p) => if !p.Leave? { PrintLeftDrops(p); hide PrintLeft, PrintNext; }
    case SaySleeping(p) => if !p.Leave? { PrintLeftDrops(p); hide PrintLeft, PrintNext; }
    case SayThinking(p) => if !p.Leave? { PrintLeftDrops(p); hide PrintLeft, PrintNext; }
    case EatNap(z) => NapLeftDrops(z, again); hide NapLeft, NapNext;
    case SleepNap(z) => NapLeftDrops(z, again); hide NapLeft, NapNext;
    case ThinkNap(z) => NapLeftDrops(z, again); hide NapLeft, NapNext;
    case _ =>
  }

  lemma MLeftDrops(c: Config, s: State)
    requires Shape(c, s) && FlagsFit(s) && Stop(s) && s.mon != Finished
    ensures MLeft(c.n, MNext(c, s)) < MLeft(c.n, s.mon)
  {
  }

  function Left(c: Config, s: State): nat
    requires Shape(c, s)
  {
    SumLeft(s.pcs) + MLeft(c.n, s.mon)
  }

  lemma StepCountsDown(c: Config, s: State, k: Pick)
    requires Inv(c, s) && Stop(s) && Allowed(c, s, k)
    ensures Inv(c, Step(c, s, k)) && Stop(Step(c, s, k))
    ensures Left(c, Step(c, s, k)) < Left(c, s)
  {
    StepInv(c, s, k);
    if k.t < c.n {
      PFacts(c, s, k);
      hide Step, Inv, PLeft, PNext, Allowed;
      PLeftDrops(s.pcs[k.t], k.again);
      SumLeftUpdate(s.pcs, k.t, PNext(s.pcs[k.t], true, k.again));
    } else {
      MFacts(c, s, k);
      hide Step, SumLeft, PLeft, MNext, MLeft, Allowed;
      MLeftDrops(c, Waited(s, k.wait));
    }
  }

  lemma {:induction false} RunCountsDown(c: Config, run: seq<State>, picks: seq<Pick>, j: nat, k: nat)
    requires IsRun(c, run, picks) && j <= k <= |picks| && Stop(run[j])
    ensures Shape(c, run[j]) && Shape(c, run[k]) && Stop(run[k])
    ensures k - j + Left(c, run[k]) <= Left(c, run[j])
    decreases k
  {
    hide IsRun, Inv, Step, Left, Allowed, Shape, Stop;
    RunShape(c, run, picks, j);
    RunShape(c, run, picks, k);
    if j < k {
      RunCountsDown(c, run, picks, j, k - 1);
      RunInv(c, run, picks, k - 1);
      RunStep(c, run, picks, k - 1);
      StepCountsDown(c, run[k - 1], picks[k - 1]);
    }
  }

  lemma LeftBound(c: Config, s: State)
    requires Shape(c, s)
    ensures Left(c, s) <= 55 * c.n + 6
  {
    SumLeftBound(s.pcs);
  }

  /**
   * Once a flag is set, at most 55 n + 6 more steps are made, and where a run
   * cannot go on every thread has returned, so the joins have completed.
   */
  lemma JoinsComplete(c: Config, run: seq<State>, picks: seq<Pick>, j: nat)
    requires IsRun(c, run, picks) && j <= |picks| && Stop(run[j])
    ensures |picks| - j <= 55 * c.n + 6
    ensures Shape(c, run[|picks|]) && (AllDone(c, run[|picks|]) || exists p :: Allowed(c, run[|picks|], p))
  {
    RunCountsDown(c, run, picks, j, |picks|);
    LeftBound(c, run[j]);
    NoDeadlock(c, run, picks, |picks|);
  }
}
