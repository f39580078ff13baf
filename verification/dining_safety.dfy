// What holds in every state any interleaving reaches: exclusion of neighbours,
// the meaning of the two stop flags, and what may still be printed after them.

module DiningSafety {
  import opened DiningModel
  import opened DiningLocks

  // Neighbours.

  predicate AtTable(pc: PC) {
    pc.SayEating? || pc.MealLock? || pc.MealWrite? || pc.MealUnlock? || pc.EatNap? || pc.Drop1?
  }

  lemma EaterHasBoth(c: Config, s: State, i: nat)
    requires Shape(c, s) && Owned(c, s) && i < c.n && AtTable(s.pcs[i])
    ensures Fork(i) in s.owner && s.owner[Fork(i)] == i
    ensures Fork(RightFork(c.n, i)) in s.owner && s.owner[Fork(RightFork(c.n, i))] == i
  {
    OwnerOf(c, s, i, First(c.n, i));
    OwnerOf(c, s, i, Second(c.n, i));
    assert {First(c.n, i), Second(c.n, i)} == {Fork(i), Fork(RightFork(c.n, i))};
  }

  /** Neighbours never eat at once. */
  lemma NeighboursTakeTurns(c: Config, s: State, i: nat)
    requires Shape(c, s) && Owned(c, s) && i < c.n
    ensures !(AtTable(s.pcs[i]) && AtTable(s.pcs[RightFork(c.n, i)]))
  {
    if AtTable(s.pcs[i]) && AtTable(s.pcs[RightFork(c.n, i)]) {
      EaterHasBoth(c, s, i);
      EaterHasBoth(c, s, RightFork(c.n, i));
    }
  }

  // The flags and the monitor.

  predicate Dying(mon: MPC) {
    mon.SayDied? || mon.DieLock? || mon.DieSet? || mon.DieUnlock? || mon.DieRelease?
  }

  /** Only the monitor sets the flags, so its place tells when they can be set. */
  predicate FlagsFit(s: State) {
    && !(s.died && s.allAte)
    && (s.died ==> s.mon.DieUnlock? || s.mon.DieRelease? || s.mon.DiedAsk? || s.mon.DiedRead?
                   || s.mon == DiedAnswer(true) || s.mon.Join? || s.mon.Finished?)
    && (s.allAte ==> s.mon.AllUnlock? || s.mon.Join? || s.mon.Finished?)
    && (s.mon == DiedAnswer(true) || s.mon.DieUnlock? || s.mon.DieRelease? ==> s.died)
    && (s.mon.AllUnlock? ==> s.allAte)
    && (s.mon.Join? || s.mon.Finished? ==> Stop(s))
    && (s.mon.SayDied? ==> s.mon.p != Look(Answer(true)) && s.mon.p != Write(true))
  }

  lemma StepFlags(c: Config, s: State, k: Pick)
    requires Shape(c, s) && FlagsFit(s) && Allowed(c, s, k)
    ensures FlagsFit(Step(c, s, k))
  {
    if k.t < c.n {
      PFacts(c, s, k);
    } else {
      MFacts(c, s, k);
    }
    hide Step, Allowed, PNext, PAct, PLines, MAct, MLines, Owners, MonInRange;
  }

  predicate Fed(c: Config, s: State, from: int)
    requires Shape(c, s)
  {
    c.mEat != -1 && forall j :: 0 <= j < c.n && from <= j ==> s.eaten[j] >= c.mEat
  }

  /** The scan looks at one philosopher at a time, yet counts never go down. */
  predicate MealsFit(c: Config, s: State)
    requires Shape(c, s)
  {
    && (s.mon.EatLock? ==> Fed(c, s, s.mon.i + 1))
    && (s.mon.EatRead? ==> Fed(c, s, s.mon.i + 1))
    && (s.mon.EatUnlock? ==> Fed(c, s, if s.mon.less then s.mon.i + 1 else s.mon.i))
    && (s.mon.AllLock? || s.mon.AllSet? || s.allAte ==> Fed(c, s, 0))
  }

  lemma FedLasts(c: Config, s: State, t: State, from: int)
    requires Shape(c, s) && Shape(c, t) && Fed(c, s, from)
    requires forall j :: 0 <= j < c.n ==> s.eaten[j] <= t.eaten[j]
    ensures Fed(c, t, from)
  {
  }

  lemma StepMealsPhilosopher(c: Config, s: State, k: Pick)
    requires Shape(c, s) && MealsFit(c, s) && Allowed(c, s, k) && k.t < c.n
    ensures Shape(c, Step(c, s, k)) && MealsFit(c, Step(c, s, k))
    ensures forall j :: 0 <= j < c.n ==> s.eaten[j] <= Step(c, s, k).eaten[j]
  {
    PFacts(c, s, k);
    hide Step, Allowed, PNext, PAct, PLines, Owners, MonInRange;
    var t := Step(c, s, k);
    assert forall j :: 0 <= j < c.n ==> s.eaten[j] <= t.eaten[j];
    forall from | Fed(c, s, from) ensures Fed(c, t, from) {
      FedLasts(c, s, t, from);
    }
    hide Fed;
  }

  lemma StepMealsMonitor(c: Config, s: State, k: Pick)
    requires Shape(c, s) && MealsFit(c, s) && Allowed(c, s, k) && k.t == c.n
    ensures Shape(c, Step(c, s, k)) && MealsFit(c, Step(c, s, k))
    ensures Step(c, s, k).eaten == s.eaten
  {
    MFacts(c, s, k);
    hide Step, Allowed, MAct, MLines, Owners, MonInRange;
  }

  lemma StepMeals(c: Config, s: State, k: Pick)
    requires Shape(c, s) && MealsFit(c, s) && Allowed(c, s, k)
    ensures Shape(c, Step(c, s, k)) && MealsFit(c, Step(c, s, k))
    ensures forall j :: 0 <= j < c.n ==> s.eaten[j] <= Step(c, s, k).eaten[j]
  {
    if k.t < c.n {
      StepMealsPhilosopher(c, s, k);
    } else {
      StepMealsMonitor(c, s, k);
    }
    hide Step, Allowed, MealsFit;
  }

  // Death.

  function DeathLines(log: seq<Line>): nat {
    if log == [] then 0
    else DeathLines(log[..|log| - 1]) + if log[|log| - 1].what == Died then 1 else 0
  }

  lemma DeathLinesAppend(log: seq<Line>, lines: seq<Line>)
    requires |lines| <= 1
    ensures DeathLines(log + lines) == DeathLines(log) + if lines != [] && lines[0].what == Died then 1 else 0
  {
    if lines == [] {
      assert log + lines == log;
    } else {
      assert (log + lines)[..|log|] == log;
    }
  }

  /** The death has been printed. */
  predicate Announcing(died: bool, mon: MPC) {
    died || mon.DieLock? || mon.DieSet? || (mon.SayDied? && mon.p.Leave?)
  }

  /** While the monitor announces a death it holds m_philo, and the philosopher has starved too long. */
  predicate DeathFits(c: Config, s: State)
    requires Shape(c, s)
  {
    && (Dying(s.mon) ==> s.now - s.last[s.mon.i] > c.die)
    && DeathLines(s.log) == if Announcing(s.died, s.mon) then 1 else 0
  }

  lemma DyingHolds(c: Config, s: State, i: nat)
    requires Shape(c, s) && Owned(c, s) && Dying(s.mon) && s.mon.i == i
    ensures Meal(i) in s.owner && s.owner[Meal(i)] == c.n
  {
    OwnerOf(c, s, c.n, Meal(i));
  }

  lemma WriterHolds(c: Config, s: State, i: nat)
    requires Shape(c, s) && Owned(c, s) && i < c.n && s.pcs[i] == MealWrite
    ensures Meal(i) in s.owner && s.owner[Meal(i)] == i
  {
    OwnerOf(c, s, i, Meal(i));
  }

  lemma NoDeathByPhilosopher(i: nat, pc: PC)
    ensures |PLines(i, pc)| <= 1 && (PLines(i, pc) != [] ==> PLines(i, pc)[0].what != Died)
  {
  }

  lemma StepDeathPhilosopher(c: Config, s: State, k: Pick)
    requires Shape(c, s) && Owned(c, s) && DeathFits(c, s) && Allowed(c, s, k) && k.t < c.n
    ensures Shape(c, Step(c, s, k)) && DeathFits(c, Step(c, s, k))
  {
    PFacts(c, s, k);
    var pc := s.pcs[k.t];
    DeathLinesAppend(s.log, PLines(k.t, pc));
    NoDeathByPhilosopher(k.t, pc);
    if pc == MealWrite {
      WriterHolds(c, s, k.t);
      if Dying(s.mon) {
        DyingHolds(c, s, s.mon.i);
      }
    }
    hide Step, Allowed, Owned, Owners, DeathLines, PNext, PAct, PLines;
  }

  /** The monitor prints when it was not announcing and is now; else nothing changes. */
  lemma MonitorAnnounces(c: Config, s: State)
    requires Shape(c, s) && FlagsFit(s) && s.mon != Finished
    ensures |MLines(s.mon)| <= 1
    ensures var next := Announcing(s.died || s.mon.DieSet?, MNext(c, s));
      if MLines(s.mon) == [] then next == Announcing(s.died, s.mon)
      else MLines(s.mon)[0].what == Died && next && !Announcing(s.died, s.mon)
  {
  }

  lemma MonitorPicks(c: Config, s: State)
    requires Shape(c, s) && s.mon != Finished && Dying(MNext(c, s))
    ensures if Dying(s.mon) then MNext(c, s).i == s.mon.i
            else s.mon.ScanTest? && MNext(c, s).i == s.mon.i && s.now - s.last[s.mon.i] > c.die
  {
  }

  lemma StepDeathMonitor(c: Config, s: State, k: Pick)
    requires Shape(c, s) && FlagsFit(s) && DeathFits(c, s) && Allowed(c, s, k) && k.t == c.n
    ensures Shape(c, Step(c, s, k)) && DeathFits(c, Step(c, s, k))
  {
    MFacts(c, s, k);
    var w := Waited(s, k.wait);
    MonitorAnnounces(c, w);
    if Dying(MNext(c, w)) {
      MonitorPicks(c, w);
    }
    DeathLinesAppend(s.log, MLines(s.mon));
    hide Step, DeathLines, Allowed, MNext, MAct, MLines, Owners, Announcing, FlagsFit;
  }

  lemma StepDeath(c: Config, s: State, k: Pick)
    requires Shape(c, s) && Owned(c, s) && FlagsFit(s) && DeathFits(c, s) && Allowed(c, s, k)
    ensures Shape(c, Step(c, s, k)) && DeathFits(c, Step(c, s, k))
  {
    if k.t < c.n {
      StepDeathPhilosopher(c, s, k);
    } else {
      StepDeathMonitor(c, s, k);
    }
  }

  /** A "died" line only ever names a philosopher who has not eaten for longer than time_to_die. */
  lemma DeathIsTrue(c: Config, s: State, k: Pick, i: nat)
    requires Shape(c, s) && DeathFits(c, s) && Allowed(c, s, k)
    requires Step(c, s, k).log == s.log + [Line(i, Died)]
    ensures k.t == c.n && i < c.n && Step(c, s, k).now - s.last[i] > c.die
  {
    var log := Step(c, s, k).log;
    assert log[|s.log|] == Line(i, Died);
  }

  // Printing after a stop flag is set.

  predicate Poised(p: Printing) {
    p == Look(Answer(false)) || p == Write(false)
  }

  /** The philosopher has read both flags as clear and has yet to print. */
  predicate Pending(pc: PC) {
    match pc
    case SayTook1(p) => Poised(p)
    case SayTook2(p) => Poised(p)
    case SayEating(p) => Poised(p)
    case SaySleeping(p) => Poised(p)
    case SayThinking(p) => Poised(p)
    case _ => false
  }

  predicate NonePending(c: Config, s: State)
    requires Shape(c, s)
  {
    forall i :: 0 <= i < c.n ==> !Pending(s.pcs[i])
  }

  predicate LateFits(c: Config, s: State)
    requires Shape(c, s)
  {
    && s.late <= 1
    && (!Stop(s) ==> s.late == 0)
    && (s.late == 1 ==> NonePending(c, s))
  }

  lemma PendingHoldsPrint(c: Config, s: State, i: nat)
    requires Shape(c, s) && Owned(c, s) && i < c.n && Pending(s.pcs[i])
    ensures Print in s.owner && s.owner[Print] == i
  {
    OwnerOf(c, s, i, Print);
  }

  lemma PendingStep(pc: PC, again: bool)
    requires pc != Unborn && pc != Returned
    ensures Pending(PNext(pc, true, again)) ==> Pending(pc)
    ensures PLines(0, pc) != [] ==> Pending(pc) && !Pending(PNext(pc, true, again))
  {
  }

  lemma StepLate(c: Config, s: State, k: Pick)
    requires Shape(c, s) && Owned(c, s) && FlagsFit(s) && LateFits(c, s) && Allowed(c, s, k)
    ensures Shape(c, Step(c, s, k)) && LateFits(c, Step(c, s, k))
  {
    if k.t < c.n {
      PFacts(c, s, k);
    } else {
      MFacts(c, s, k);
    }
    hide Step, Allowed;
    if Stop(s) && k.t < c.n {
      PendingStep(s.pcs[k.t], k.again);
      if Pending(s.pcs[k.t]) {
        PendingHoldsPrint(c, s, k.t);
        forall i | 0 <= i < c.n && i != k.t ensures !Pending(s.pcs[i]) {
          if Pending(s.pcs[i]) { PendingHoldsPrint(c, s, i); }
        }
      }
    }
  }

  // All of it, in every reachable state.

  ghost predicate Inv(c: Config, s: State) {
    && Shape(c, s) && Spawned(c, s) && Owned(c, s)
    && FlagsFit(s) && MealsFit(c, s) && DeathFits(c, s) && LateFits(c, s)
  }

  lemma InitialInv(c: Config, s: State)
    requires Initial(c, s)
    ensures Inv(c, s)
  {
  }

  lemma StepInv(c: Config, s: State, k: Pick)
    requires Inv(c, s) && Allowed(c, s, k)
    ensures Inv(c, Step(c, s, k))
  {
    hide Shape, Owned, Spawned, FlagsFit, MealsFit, DeathFits, LateFits, Step, Allowed;
    StepShape(c, s, k);
    StepSpawned(c, s, k);
    StepOwned(c, s, k);
    StepFlags(c, s, k);
    StepMeals(c, s, k);
    StepDeath(c, s, k);
    StepLate(c, s, k);
  }

  lemma {:induction false} RunInv(c: Config, run: seq<State>, picks: seq<Pick>, k: nat)
    requires IsRun(c, run, picks) && k <= |picks|
    ensures Inv(c, run[k])
  {
    if k == 0 {
      InitialInv(c, run[0]);
    } else {
      RunInv(c, run, picks, k - 1);
      RunStep(c, run, picks, k - 1);
      hide Inv, Step;
      StepInv(c, run[k - 1], picks[k - 1]);
    }
  }

  /** Every state of every interleaving of any number of philosophers: no deadlock. */
  lemma NoDeadlock(c: Config, run: seq<State>, picks: seq<Pick>, k: nat)
    requires IsRun(c, run, picks) && k <= |picks|
    ensures Shape(c, run[k]) && (AllDone(c, run[k]) || exists p :: Allowed(c, run[k], p))
  {
    RunInv(c, run, picks, k);
    if !AllDone(c, run[k]) {
      SomeoneMoves(c, run[k]);
    }
  }

  /** Every state: exclusion, the flags mean what they say, and at most one line is late. */
  lemma AlwaysSafe(c: Config, run: seq<State>, picks: seq<Pick>, k: nat)
    requires IsRun(c, run, picks) && k <= |picks|
    ensures var t := run[k];
      && Shape(c, t)
      && (forall i :: 0 <= i < c.n ==> !(AtTable(t.pcs[i]) && AtTable(t.pcs[RightFork(c.n, i)])))
      && (t.allAte ==> forall i :: 0 <= i < c.n ==> t.eaten[i] >= c.mEat)
      && DeathLines(t.log) <= 1 && (t.died ==> DeathLines(t.log) == 1)
      && !(t.died && t.allAte)
      && t.late <= 1
      && (AllDone(c, t) ==> t.owner == map[])
  {
    RunInv(c, run, picks, k);
    var t := run[k];
    forall i | 0 <= i < c.n ensures !(AtTable(t.pcs[i]) && AtTable(t.pcs[RightFork(c.n, i)])) {
      NeighboursTakeTurns(c, t, i);
    }
    if AllDone(c, t) {
      NothingOwned(c, t);
    }
  }

  /** Every "died" line of a run names a philosopher who had starved too long when it was printed. */
  lemma DeathsAreTrue(c: Config, run: seq<State>, picks: seq<Pick>, k: nat, i: nat)
    requires IsRun(c, run, picks) && k < |picks| && run[k + 1].log == run[k].log + [Line(i, Died)]
    ensures i < c.n && |run[k].last| == c.n && run[k + 1].now - run[k].last[i] > c.die
  {
    RunInv(c, run, picks, k);
    RunStep(c, run, picks, k);
    DeathIsTrue(c, run[k], picks[k], i);
  }
}
