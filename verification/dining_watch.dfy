// What the monitor brings about, by its own steps alone and whatever the others do between them:
// it ends the simulation when all have eaten enough, and when one has starved
// (philosopher/philo_death_check.c:15-93).

module DiningWatch {
  import opened DiningModel
  import opened DiningLocks
  import opened DiningSafety

  /** The steps of the main thread from state j to state k of a run. */
  function Own(n: nat, picks: seq<Pick>, j: nat, k: nat): nat
    requires k <= |picks|
  {
    if k <= j then 0 else Own(n, picks, j, k - 1) + if picks[k - 1].t == n then 1 else 0
  }

  // All have eaten enough.

  /** Past the test for a death, with every count reached and none found below. */
  predicate Counting(c: Config, s: State)
    requires Shape(c, s)
  {
    && Fed(c, s, 0) && !Stop(s)
    && (s.mon == DiedAnswer(false) || s.mon.EatLock? || s.mon.EatRead? || (s.mon.EatUnlock? && !s.mon.less)
        || s.mon.AllLock? || s.mon.AllSet?)
  }

  function CountLeft(n: nat, mon: MPC): nat {
    match mon
    case DiedAnswer(_) => 3 * n + 3
    case EatLock(i) => 3 * i + 5
    case EatRead(i) => 3 * i + 4
    case EatUnlock(i, _) => 3 * i + 3
    case AllLock => 2
    case AllSet => 1
    case _ => 0
  }

  lemma CountingMain(c: Config, s: State)
    requires Shape(c, s) && Counting(c, s)
    ensures s.mon == AllSet || CountLeft(c.n, MNext(c, s)) + 1 == CountLeft(c.n, s.mon)
    ensures s.mon != AllSet ==> Counting(c, s.(mon := MNext(c, s)))
  {
  }

  lemma StepCounting(c: Config, s: State, k: Pick)
    requires Inv(c, s) && Counting(c, s) && Allowed(c, s, k)
    ensures Shape(c, Step(c, s, k))
    ensures k.t < c.n ==> Counting(c, Step(c, s, k)) && Step(c, s, k).mon == s.mon
    ensures k.t == c.n && s.mon == AllSet ==> Step(c, s, k).allAte
    ensures k.t == c.n && s.mon != AllSet ==>
      Counting(c, Step(c, s, k)) && CountLeft(c.n, Step(c, s, k).mon) + 1 == CountLeft(c.n, s.mon)
  {
    if k.t < c.n {
      StepMealsPhilosopher(c, s, k);
      PFacts(c, s, k);
      FedLasts(c, s, Step(c, s, k), 0);
    } else {
      MFacts(c, s, k);
      CountingMain(c, Waited(s, k.wait));
      hide MNext;
    }
    hide Step, Inv, Fed, CountLeft, PNext, PAct, MAct, PLines, MLines, Owners;
  }

  lemma StepAte(c: Config, s: State, k: Pick)
    requires Shape(c, s) && Allowed(c, s, k) && s.allAte
    ensures Step(c, s, k).allAte
  {
  }

  lemma OwnNext(n: nat, picks: seq<Pick>, j: nat, k: nat)
    requires k < |picks|
    ensures Own(n, picks, k, k) == 0
    ensures j <= k ==> Own(n, picks, j, k + 1) == Own(n, picks, j, k) + if picks[k].t == n then 1 else 0
  {
  }

  lemma CountingStarts(c: Config, run: seq<State>, picks: seq<Pick>, j: nat)
    requires IsRun(c, run, picks) && j <= |picks| && c.mEat != -1 && run[j].mon == DiedAnswer(false)
    requires forall i :: 0 <= i < |run[j].eaten| ==> run[j].eaten[i] >= c.mEat
    ensures |run| == |picks| + 1 && Shape(c, run[j]) && Counting(c, run[j]) && !run[j].allAte
    ensures CountLeft(c.n, run[j].mon) == 3 * c.n + 3 && Own(c.n, picks, j, j) == 0
  {
    RunInv(c, run, picks, j);
    hide IsRun;
  }

  lemma CountingNext(c: Config, run: seq<State>, picks: seq<Pick>, k: nat)
    requires IsRun(c, run, picks) && k < |picks| && (run[k].allAte || (Shape(c, run[k]) && Counting(c, run[k])))
    ensures |run| == |picks| + 1 && Shape(c, run[k + 1]) && (run[k].allAte ==> run[k + 1].allAte)
    ensures !run[k].allAte ==>
      var s, t, own := run[k], run[k + 1], if picks[k].t == c.n then 1 else 0;
      && (t.allAte <==> CountLeft(c.n, s.mon) == own)
      && (!t.allAte ==> Counting(c, t) && CountLeft(c.n, t.mon) + own == CountLeft(c.n, s.mon))
      && CountLeft(c.n, s.mon) >= 1
  {
    RunInv(c, run, picks, k);
    RunStep(c, run, picks, k);
    RunShape(c, run, picks, k + 1);
    hide *;
    CountedOn(c, run[k], picks[k]);
  }

  /**
   * When every count has been reached as the monitor finds nobody dead, then all_ate is set
   * exactly from its next 3n + 3 steps on.
   */
  lemma {:induction false} AllAteIsSet(c: Config, run: seq<State>, picks: seq<Pick>, j: nat, k: nat)
    requires IsRun(c, run, picks) && j <= k <= |picks| && c.mEat != -1
    requires run[j].mon == DiedAnswer(false) && forall i :: 0 <= i < |run[j].eaten| ==> run[j].eaten[i] >= c.mEat
    ensures |run| == |picks| + 1
    ensures run[k].allAte <==> Own(c.n, picks, j, k) >= 3 * c.n + 3
    ensures !run[k].allAte ==> Shape(c, run[k]) && Counting(c, run[k])
    ensures !run[k].allAte ==> CountLeft(c.n, run[k].mon) + Own(c.n, picks, j, k) == 3 * c.n + 3
    decreases k
  {
    RunShape(c, run, picks, j);
    hide *;
    if j == k {
      CountingStarts(c, run, picks, j);
    } else {
      AllAteIsSet(c, run, picks, j, k - 1);
      CountingNext(c, run, picks, k - 1);
      OwnNext(c.n, picks, j, k - 1);
    }
  }

  lemma CountedOn(c: Config, s: State, k: Pick)
    requires Inv(c, s) && Allowed(c, s, k) && (s.allAte || Counting(c, s))
    ensures Shape(c, Step(c, s, k)) && (s.allAte ==> Step(c, s, k).allAte)
    ensures !s.allAte ==>
      var t, own := Step(c, s, k), if k.t == c.n then 1 else 0;
      && (t.allAte <==> CountLeft(c.n, s.mon) == own)
      && (!t.allAte ==> Counting(c, t) && CountLeft(c.n, t.mon) + own == CountLeft(c.n, s.mon))
      && CountLeft(c.n, s.mon) >= 1
  {
    StepShape(c, s, k);
    if s.allAte {
      StepAte(c, s, k);
    } else {
      StepCounting(c, s, k);
    }
    hide Step, Inv;
  }

  /** While the monitor has m_philo of i, the count and the time of i stand still. */
  lemma ReadHolds(c: Config, s: State, k: Pick, i: nat)
    requires Inv(c, s) && Allowed(c, s, k) && k.t < c.n && i < c.n && Meal(i) in MHeld(s.mon)
    ensures Shape(c, Step(c, s, k)) && Step(c, s, k).mon == s.mon
    ensures Step(c, s, k).eaten[i] == s.eaten[i] && Step(c, s, k).last[i] == s.last[i]
  {
    PFacts(c, s, k);
    OwnerOf(c, s, c.n, Meal(i));
    if s.pcs[k.t] == MealWrite && k.t == i {
      WriterHolds(c, s, i);
    }
    hide Step, PNext, PAct, PLines, Owners, MHeld, Owned;
  }

  /** What holds from the reading of a count that is too low, after m more steps of the monitor. */
  predicate TooFew(c: Config, s: State, i: nat, m: nat)
    requires Shape(c, s)
  {
    && i < c.n && (m <= 2 ==> !Stop(s))
    && (m == 0 ==> s.mon == EatRead(i) && s.eaten[i] < c.mEat)
    && (m == 1 ==> s.mon == EatUnlock(i, true)) && (m == 2 ==> s.mon == ScanLock(0))
  }

  lemma StepTooFew(c: Config, s: State, k: Pick, i: nat, m: nat)
    requires Inv(c, s) && TooFew(c, s, i, m) && Allowed(c, s, k)
    ensures Shape(c, Step(c, s, k)) && TooFew(c, Step(c, s, k), i, if k.t == c.n then m + 1 else m)
  {
    if k.t == c.n {
      MFacts(c, s, k);
    } else {
      PFacts(c, s, k);
      if m == 0 {
        ReadHolds(c, s, k, i);
      }
    }
    hide Step, Inv, PNext, PAct, MAct, PLines, MLines, Owners, MonInRange;
  }

  lemma TooFewStarts(c: Config, run: seq<State>, picks: seq<Pick>, j: nat, i: nat)
    requires IsRun(c, run, picks) && j <= |picks|
    requires run[j].mon == EatRead(i) && i < |run[j].eaten| && run[j].eaten[i] < c.mEat
    ensures |run| == |picks| + 1 && Shape(c, run[j]) && TooFew(c, run[j], i, 0) && Own(c.n, picks, j, j) == 0
  {
    RunInv(c, run, picks, j);
    hide IsRun;
  }

  lemma TooFewNext(c: Config, run: seq<State>, picks: seq<Pick>, k: nat, i: nat, m: nat)
    requires IsRun(c, run, picks) && k < |picks| && Shape(c, run[k]) && TooFew(c, run[k], i, m)
    ensures |run| == |picks| + 1 && Shape(c, run[k + 1])
    ensures TooFew(c, run[k + 1], i, if picks[k].t == c.n then m + 1 else m)
  {
    RunInv(c, run, picks, k);
    RunStep(c, run, picks, k);
    RunShape(c, run, picks, k + 1);
    hide *;
    StepTooFew(c, run[k], picks[k], i, m);
  }

  lemma {:induction false} TooFewOn(c: Config, run: seq<State>, picks: seq<Pick>, j: nat, k: nat, i: nat)
    requires IsRun(c, run, picks) && j <= k <= |picks|
    requires run[j].mon == EatRead(i) && i < |run[j].eaten| && run[j].eaten[i] < c.mEat
    ensures |run| == |picks| + 1 && Shape(c, run[k]) && TooFew(c, run[k], i, Own(c.n, picks, j, k))
    decreases k
  {
    RunShape(c, run, picks, j);
    hide *;
    if j == k {
      TooFewStarts(c, run, picks, j, i);
    } else {
      TooFewOn(c, run, picks, j, k - 1, i);
      TooFewNext(c, run, picks, k - 1, i, Own(c.n, picks, j, k - 1));
      OwnNext(c.n, picks, j, k - 1);
    }
  }

  /** A count found too low ends the scan: the monitor goes on to look for the starved, nothing set. */
  lemma TooFewGoesOn(c: Config, run: seq<State>, picks: seq<Pick>, j: nat, k: nat, i: nat)
    requires IsRun(c, run, picks) && j <= k <= |picks|
    requires run[j].mon == EatRead(i) && i < |run[j].eaten| && run[j].eaten[i] < c.mEat
    ensures |run| == |picks| + 1
    ensures Own(c.n, picks, j, k) == 1 ==> run[k].mon == EatUnlock(i, true)
    ensures Own(c.n, picks, j, k) == 2 ==> run[k].mon == ScanLock(0)
    ensures Own(c.n, picks, j, k) <= 2 ==> !run[k].allAte && !run[k].died
  {
    TooFewOn(c, run, picks, j, k, i);
    hide IsRun;
  }

  // One has starved.

  predicate Starved(c: Config, s: State, i: nat)
    requires Shape(c, s) && i < c.n
  {
    s.now - s.last[i] > c.die
  }

  /** About to find i starved, or announcing it. */
  predicate Doomed(c: Config, s: State, i: nat)
    requires Shape(c, s) && i < c.n
  {
    && !Stop(s) && Starved(c, s, i)
    && (s.mon == ScanTest(i) || (s.mon.SayDied? && s.mon.i == i) || s.mon == DieLock(i) || s.mon == DieSet(i))
  }

  function PrintSteps(p: Printing): nat {
    match p
    case Queue => 6
    case Look(Ask) => 5
    case Look(Read) => 4
    case Look(Answer(_)) => 3
    case Write(_) => 2
    case Leave => 1
  }

  function DoomLeft(mon: MPC): nat {
    match mon
    case ScanTest(_) => 9
    case SayDied(_, p) => 2 + PrintSteps(p)
    case DieLock(_) => 2
    case DieSet(_) => 1
    case _ => 0
  }

  lemma DoomedMain(c: Config, s: State, i: nat)
    requires Shape(c, s) && i < c.n && Doomed(c, s, i) && FlagsFit(s)
    ensures s.mon == DieSet(i) || DoomLeft(MNext(c, s)) + 1 == DoomLeft(s.mon)
    ensures s.mon != DieSet(i) ==> Doomed(c, s.(mon := MNext(c, s)), i)
    ensures DoomLeft(s.mon) == 4 ==> MLines(s.mon) == [Line(i, Died)]
  {
  }

  lemma StepDoomed(c: Config, s: State, k: Pick, i: nat)
    requires Inv(c, s) && i < c.n && Doomed(c, s, i) && Allowed(c, s, k)
    ensures Shape(c, Step(c, s, k)) && s.log <= Step(c, s, k).log
    ensures k.t < c.n ==> Doomed(c, Step(c, s, k), i) && Step(c, s, k).mon == s.mon
    ensures k.t == c.n && s.mon == DieSet(i) ==> Step(c, s, k).died
    ensures k.t == c.n && s.mon != DieSet(i) ==>
      Doomed(c, Step(c, s, k), i) && DoomLeft(Step(c, s, k).mon) + 1 == DoomLeft(s.mon)
    ensures k.t == c.n && DoomLeft(s.mon) == 4 ==> Step(c, s, k).log == s.log + [Line(i, Died)]
  {
    if k.t < c.n {
      PFacts(c, s, k);
      ReadHolds(c, s, k, i);
    } else {
      MFacts(c, s, k);
      DoomedMain(c, Waited(s, k.wait), i);
      hide MNext;
    }
    hide Step, Inv, DoomLeft, PNext, PAct, MAct, PLines, MLines, Owners;
  }

  /** What holds from the test that finds i starved, after m more steps of the monitor. */
  ghost predicate Telling(c: Config, s: State, i: nat, m: nat)
    requires Shape(c, s) && i < c.n
  {
    && (s.died <==> m >= 9) && (m < 9 ==> Doomed(c, s, i) && DoomLeft(s.mon) + m == 9)
    && (m >= 6 ==> Line(i, Died) in s.log)
  }

  lemma StepTelling(c: Config, s: State, k: Pick, i: nat, m: nat)
    requires Inv(c, s) && i < c.n && Telling(c, s, i, m) && Allowed(c, s, k)
    ensures Shape(c, Step(c, s, k)) && Telling(c, Step(c, s, k), i, if k.t == c.n then m + 1 else m)
  {
    StepShape(c, s, k);
    if m < 9 {
      StepDoomed(c, s, k, i);
      DoomAt(c, s, i);
    } else {
      DiedStays(c, s, k);
    }
    hide Step, Inv, Doomed;
  }

  lemma DoomAt(c: Config, s: State, i: nat)
    requires Shape(c, s) && i < c.n && Doomed(c, s, i)
    ensures !s.died && (DoomLeft(s.mon) == 1 <==> s.mon == DieSet(i)) && DoomLeft(s.mon) >= 1
  {
  }

  lemma DiedStays(c: Config, s: State, k: Pick)
    requires Shape(c, s) && Allowed(c, s, k)
    ensures s.died ==> Step(c, s, k).died
    ensures s.log <= Step(c, s, k).log
  {
  }

  lemma TellingStarts(c: Config, run: seq<State>, picks: seq<Pick>, j: nat, i: nat)
    requires IsRun(c, run, picks) && j <= |picks|
    requires run[j].mon == ScanTest(i) && i < |run[j].last| && run[j].now - run[j].last[i] > c.die
    ensures |run| == |picks| + 1 && i < c.n && Shape(c, run[j]) && Telling(c, run[j], i, 0)
    ensures Own(c.n, picks, j, j) == 0
  {
    RunInv(c, run, picks, j);
    hide IsRun;
  }

  lemma TellingNext(c: Config, run: seq<State>, picks: seq<Pick>, k: nat, i: nat, m: nat)
    requires IsRun(c, run, picks) && k < |picks| && i < c.n && Shape(c, run[k]) && Telling(c, run[k], i, m)
    ensures |run| == |picks| + 1 && Shape(c, run[k + 1])
    ensures Telling(c, run[k + 1], i, if picks[k].t == c.n then m + 1 else m)
  {
    RunInv(c, run, picks, k);
    RunStep(c, run, picks, k);
    RunShape(c, run, picks, k + 1);
    hide *;
    StepTelling(c, run[k], picks[k], i, m);
  }

  lemma {:induction false} TellingOn(c: Config, run: seq<State>, picks: seq<Pick>, j: nat, k: nat, i: nat)
    requires IsRun(c, run, picks) && j <= k <= |picks|
    requires run[j].mon == ScanTest(i) && i < |run[j].last| && run[j].now - run[j].last[i] > c.die
    ensures |run| == |picks| + 1 && i < c.n && Shape(c, run[k])
    ensures Telling(c, run[k], i, Own(c.n, picks, j, k))
    decreases k
  {
    RunShape(c, run, picks, j);
    hide *;
    if j == k {
      TellingStarts(c, run, picks, j, i);
    } else {
      TellingOn(c, run, picks, j, k - 1, i);
      TellingNext(c, run, picks, k - 1, i, Own(c.n, picks, j, k - 1));
      OwnNext(c.n, picks, j, k - 1);
    }
  }

  /**
   * A philosopher whom the monitor is about to test and who has starved is announced within its
   * next six steps, and philo_died is set exactly from its next nine steps on.
   */
  lemma DeathIsTold(c: Config, run: seq<State>, picks: seq<Pick>, j: nat, k: nat, i: nat)
    requires IsRun(c, run, picks) && j <= k <= |picks|
    requires run[j].mon == ScanTest(i) && i < |run[j].last| && run[j].now - run[j].last[i] > c.die
    ensures |run| == |picks| + 1
    ensures run[k].died <==> Own(c.n, picks, j, k) >= 9
    ensures Own(c.n, picks, j, k) >= 6 ==> Line(i, Died) in run[k].log
  {
    TellingOn(c, run, picks, j, k, i);
    hide IsRun, Doomed;
  }

  // From anywhere in its loop the monitor comes to a starved philosopher in time.

  /** Steps of the monitor to the end of its loop, at most, when philosopher i has starved. */
  function Until(n: nat, i: nat, mon: MPC): int {
    match mon
    case DiedAsk => 3 * n + 13 + 3 * i
    case DiedRead => 3 * n + 12 + 3 * i
    case DiedAnswer(_) => 3 * n + 11 + 3 * i
    case EatLock(k) => 3 * k + 13 + 3 * i
    case EatRead(k) => 3 * k + 12 + 3 * i
    case EatUnlock(k, less) => if less then 11 + 3 * i else 3 * k + 11 + 3 * i
    case AllLock => 2
    case AllSet => 1
    case ScanLock(j) => if j <= i then 10 + 3 * (i - j) else 3 * (n - j) + 3 * n + 13 + 3 * i
    case ScanTest(j) => if j <= i then 9 + 3 * (i - j) else 3 * (n - j) + 3 * n + 12 + 3 * i
    case ScanUnlock(j) => if j < i then 8 + 3 * (i - j) else 3 * (n - j) + 3 * n + 11 + 3 * i
    case SayDied(_, p) => 2 + PrintSteps(p)
    case DieLock(_) => 2
    case DieSet(_) => 1
    case _ => 0
  }

  lemma UntilBound(n: nat, i: nat, mon: MPC)
    requires i < n && (mon.ScanLock? ==> mon.i < n) && (mon.ScanTest? ==> mon.i < n) && (mon.EatLock? ==> mon.i < n)
    requires (mon.EatRead? ==> mon.i < n) && (mon.EatUnlock? ==> mon.i < n)
    ensures Until(n, i, mon) <= 6 * n + 11
  {
  }

  lemma UntilMain(c: Config, s: State, i: nat)
    requires Shape(c, s) && i < c.n && !Stop(s) && FlagsFit(s) && !s.mon.Spawn? && Starved(c, s, i)
    ensures s.mon != Finished && Until(c.n, i, s.mon) >= 1
    ensures s.mon.AllSet? || s.mon.DieSet? || Until(c.n, i, MNext(c, s)) + 1 <= Until(c.n, i, s.mon)
    ensures !MNext(c, s).Spawn?
  {
  }

  lemma StepUntil(c: Config, s: State, k: Pick, i: nat)
    requires Inv(c, s) && i < c.n && !Stop(s) && !s.mon.Spawn? && Starved(c, s, i) && Allowed(c, s, k)
    ensures Shape(c, Step(c, s, k)) && !Step(c, s, k).mon.Spawn?
    ensures Stop(Step(c, s, k)) ||
      Until(c.n, i, Step(c, s, k).mon) + (if k.t == c.n then 1 else 0) <= Until(c.n, i, s.mon)
    ensures Until(c.n, i, s.mon) >= 1 && s.now <= Step(c, s, k).now
  {
    UntilMain(c, Waited(s, k.wait), i);
    if k.t < c.n {
      PFacts(c, s, k);
    } else {
      MFacts(c, s, k);
    }
    hide Step, Inv, Until, MNext, PNext, PAct, MAct, PLines, MLines, Owners;
  }

  lemma StopStays(c: Config, s: State, k: Pick)
    requires Shape(c, s) && Allowed(c, s, k) && Stop(s)
    ensures Stop(Step(c, s, k))
  {
  }

  lemma OwnNone(n: nat, picks: seq<Pick>, j: nat)
    requires j <= |picks|
    ensures Own(n, picks, j, j) == 0
  {
  }

  lemma ShapeSize(c: Config, s: State)
    requires Shape(c, s)
    ensures |s.last| == c.n
  {
  }

  lemma WatchedNext(c: Config, run: seq<State>, picks: seq<Pick>, k: nat, i: nat)
    requires IsRun(c, run, picks) && k < |picks| && i < c.n && !run[k].mon.Spawn?
    requires i < |run[k].last| && run[k].now - run[k].last[i] > c.die
    ensures |run| == |picks| + 1 && Shape(c, run[k + 1]) && !run[k + 1].mon.Spawn? && run[k].now <= run[k + 1].now
    ensures Stop(run[k]) ==> Stop(run[k + 1])
    ensures Stop(run[k]) || Stop(run[k + 1]) ||
      Until(c.n, i, run[k + 1].mon) + (if picks[k].t == c.n then 1 else 0) <= Until(c.n, i, run[k].mon)
  {
    RunInv(c, run, picks, k);
    RunStep(c, run, picks, k);
    RunShape(c, run, picks, k + 1);
    assert Starved(c, run[k], i);
    hide *;
    WatchedStep(c, run[k], picks[k], i);
  }

  lemma {:induction false} WatchedOn(c: Config, run: seq<State>, picks: seq<Pick>, j: nat, k: nat, i: nat)
    requires IsRun(c, run, picks) && j <= k <= |picks| && i < c.n && !run[j].mon.Spawn?
    requires i < |run[j].last| && run[j].now - run[j].last[i] > c.die
    requires forall x :: j <= x <= k ==> i < |run[x].last| && run[x].last[i] == run[j].last[i]
    ensures |run| == |picks| + 1 && Shape(c, run[k]) && !run[k].mon.Spawn? && run[j].now <= run[k].now
    ensures Stop(run[k]) || Until(c.n, i, run[k].mon) + Own(c.n, picks, j, k) <= Until(c.n, i, run[j].mon)
    decreases k
  {
    RunShape(c, run, picks, k);
    ShapeSize(c, run[k]);
    hide *;
    if j == k {
      assert Own(c.n, picks, j, j) == 0 by { OwnNone(c.n, picks, j); }
    } else {
      WatchedOn(c, run, picks, j, k - 1, i);
      WatchedNext(c, run, picks, k - 1, i);
      OwnNext(c.n, picks, j, k - 1);
    }
  }

  lemma WatchedStep(c: Config, s: State, k: Pick, i: nat)
    requires Inv(c, s) && i < c.n && !s.mon.Spawn? && Starved(c, s, i) && Allowed(c, s, k)
    ensures Shape(c, Step(c, s, k)) && !Step(c, s, k).mon.Spawn? && s.now <= Step(c, s, k).now
    ensures Stop(s) ==> Stop(Step(c, s, k))
    ensures Stop(s) || Stop(Step(c, s, k)) ||
      Until(c.n, i, Step(c, s, k).mon) + (if k.t == c.n then 1 else 0) <= Until(c.n, i, s.mon)
  {
    StepShape(c, s, k);
    if Stop(s) {
      StopStays(c, s, k);
      NeverSpawns(c, s, k);
    } else {
      StepUntil(c, s, k, i);
    }
    hide Step, Inv, Until, Stop;
  }

  lemma NeverSpawns(c: Config, s: State, k: Pick)
    requires Shape(c, s) && Allowed(c, s, k) && !s.mon.Spawn?
    ensures !Step(c, s, k).mon.Spawn? && s.now <= Step(c, s, k).now
  {
  }

  /**
   * Once the threads run, a philosopher who has starved and does not eat again ends the simulation:
   * after at most 6n + 11 more steps of the monitor a flag is set.
   */
  lemma StarvedIsFound(c: Config, run: seq<State>, picks: seq<Pick>, j: nat, k: nat, i: nat)
    requires IsRun(c, run, picks) && j <= k <= |picks| && i < c.n && !run[j].mon.Spawn?
    requires i < |run[j].last| && run[j].now - run[j].last[i] > c.die
    requires forall x :: j <= x <= k ==> i < |run[x].last| && run[x].last[i] == run[j].last[i]
    requires Own(c.n, picks, j, k) >= 6 * c.n + 11
    ensures |run| == |picks| + 1 && Stop(run[k])
  {
    WatchedOn(c, run, picks, j, k, i);
    RunInv(c, run, picks, j);
    RunInv(c, run, picks, k);
    UntilBound(c.n, i, run[j].mon);
    hide IsRun;
    if !Stop(run[k]) {
      UntilMain(c, run[k], i);
    }
  }
}
