// Thread by thread: what a blocked thread waits for, and which mutex guards which data
// (philosopher/philo_utils.c:57-79, philosopher/philo_death_check.c, philosopher/philo_routine.c).

module DiningProgress {
  import opened DiningModel
  import opened DiningLocks
  import opened DiningSafety

  // Chains of waiting threads.

  /** Started and not yet over. */
  predicate Alive(c: Config, s: State, t: nat)
    requires Shape(c, s) && t <= c.n
  {
    if t < c.n then s.pcs[t] != Unborn && s.pcs[t] != Returned else s.mon != Finished
  }

  /** main waits in pthread_join for a thread that has not returned. */
  predicate Joining(c: Config, s: State, t: nat)
    requires Shape(c, s)
  {
    t == c.n && s.mon.Join? && s.mon.i < c.n && s.pcs[s.mon.i] != Returned
  }

  /** Thread t cannot move before thread u does: u owns the mutex t asks for, or t joins u. */
  predicate Waits(c: Config, s: State, t: nat, u: nat)
    requires Shape(c, s)
  {
    && t <= c.n && u <= c.n
    && if Joining(c, s, t) then u == s.mon.i
       else ActOf(c, s, t).Lock? && ActOf(c, s, t).l in s.owner && s.owner[ActOf(c, s, t).l] == u
  }

  /** What t asks for ranks below what u asks for, where both ask for a mutex. */
  predicate Climbs(c: Config, s: State, t: nat, u: nat)
    requires Shape(c, s) && t <= c.n && u <= c.n
  {
    !Joining(c, s, t) && ActOf(c, s, t).Lock? && ActOf(c, s, u).Lock? ==>
      Rank(c.n, ActOf(c, s, t).l) < Rank(c.n, ActOf(c, s, u).l)
  }

  predicate Link(c: Config, s: State, t: nat, u: nat)
    requires Shape(c, s)
  {
    Waits(c, s, t, u) && Climbs(c, s, t, u)
  }

  /** Each thread waits for the next one, and the mutexes asked for climb in rank. */
  predicate Chain(c: Config, s: State, path: seq<nat>)
    requires Shape(c, s)
  {
    path != [] && path[|path| - 1] <= c.n && forall i :: 0 <= i < |path| - 1 ==> Link(c, s, path[i], path[i + 1])
  }

  /** How far a chain from t can still climb. */
  function Height(c: Config, s: State, t: nat): int
    requires Shape(c, s) && t <= c.n
  {
    if Joining(c, s, t) then 2 * c.n + 6
    else if ActOf(c, s, t).Lock? then 2 * c.n + 4 - Rank(c.n, ActOf(c, s, t).l)
    else 0
  }

  lemma RankFits(c: Config, s: State, t: nat)
    requires Shape(c, s) && t <= c.n
    ensures ActOf(c, s, t).Lock? ==> 1 <= Rank(c.n, ActOf(c, s, t).l) <= 2 * c.n + 3
    ensures 0 <= Height(c, s, t) <= 2 * c.n + 6 && (!Joining(c, s, t) ==> Height(c, s, t) <= 2 * c.n + 3)
  {
    if t < c.n {
      ForksAscend(c.n, t);
    }
  }

  /** Whoever owns a mutex is alive and not joining, and asks only for mutexes ranked above it. */
  lemma OwnerFacts(c: Config, s: State, l: LockId)
    requires Shape(c, s) && Owned(c, s) && l in s.owner
    ensures var u := s.owner[l];
      && u <= c.n && Alive(c, s, u) && !Joining(c, s, u)
      && (ActOf(c, s, u).Lock? ==> Rank(c.n, l) < Rank(c.n, ActOf(c, s, u).l))
  {
    var u := s.owner[l];
    NothingHeldAtBirth(c.n);
    hide PHeld, MHeld, Rank, PAct, MAct;
    if u < c.n {
      PBelow(c.n, u, s.pcs[u]);
    } else {
      MBelow(c.n, s.mon);
    }
  }

  /** Waiting goes upwards in rank, so towards threads that have less left to climb. */
  lemma WaitsLower(c: Config, s: State, t: nat, u: nat)
    requires Shape(c, s) && Owned(c, s) && Waits(c, s, t, u)
    ensures t <= c.n && u <= c.n && Climbs(c, s, t, u) && Height(c, s, u) < Height(c, s, t)
  {
    RankFits(c, s, t);
    RankFits(c, s, u);
    hide Rank, PAct, MAct, Owned;
    if !Joining(c, s, t) {
      OwnerFacts(c, s, ActOf(c, s, t).l);
    }
  }

  /** Threads never wait for one another in a circle. */
  lemma {:induction false} NoCircle(c: Config, s: State, path: seq<nat>)
    requires Shape(c, s) && Owned(c, s) && |path| >= 2
    requires forall i :: 0 <= i < |path| - 1 ==> Waits(c, s, path[i], path[i + 1])
    ensures path[0] <= c.n && path[|path| - 1] <= c.n
    ensures Height(c, s, path[|path| - 1]) < Height(c, s, path[0]) && path[|path| - 1] != path[0]
  {
    hide Owned, Waits, Height;
    assert Waits(c, s, path[0], path[0 + 1]);
    WaitsLower(c, s, path[0], path[1]);
    if |path| > 2 {
      var rest := path[1..];
      forall i | 0 <= i < |rest| - 1 ensures Waits(c, s, rest[i], rest[i + 1]) {
        assert Waits(c, s, path[i + 1], path[i + 1 + 1]);
      }
      NoCircle(c, s, rest);
    }
  }

  /** A thread that cannot move waits for one that is alive. */
  lemma BlockedWaits(c: Config, s: State, t: nat) returns (u: nat)
    requires Shape(c, s) && Spawned(c, s) && Owned(c, s) && t <= c.n && Alive(c, s, t) && !CanMove(c, s, t)
    ensures Link(c, s, t, u) && u <= c.n && Alive(c, s, u) && Height(c, s, u) < Height(c, s, t)
  {
    hide Rank, PAct, MAct, Owned;
    if Joining(c, s, t) {
      u := s.mon.i;
    } else {
      u := s.owner[ActOf(c, s, t).l];
      OwnerFacts(c, s, ActOf(c, s, t).l);
    }
    WaitsLower(c, s, t, u);
  }

  lemma ChainLonger(c: Config, s: State, t: nat, path: seq<nat>)
    requires Shape(c, s) && Chain(c, s, path) && Link(c, s, t, path[0])
    ensures Chain(c, s, [t] + path)
  {
    hide Link;
    var longer := [t] + path;
    forall i | 0 <= i < |longer| - 1 ensures Link(c, s, longer[i], longer[i + 1]) {
      if i > 0 {
        assert longer[i] == path[i - 1] && longer[i + 1] == path[i];
      }
    }
  }

  /** From every thread a climbing chain of waiting threads leads to one that can move. */
  lemma {:induction false} ChainMoves(c: Config, s: State, t: nat) returns (path: seq<nat>)
    requires Shape(c, s) && Spawned(c, s) && Owned(c, s) && t <= c.n && Alive(c, s, t)
    ensures Chain(c, s, path) && path[0] == t
    ensures CanMove(c, s, path[|path| - 1])
    decreases Height(c, s, t)
  {
    RankFits(c, s, t);
    hide Height, Owned, Spawned, CanMove, Rank, ActOf, Alive, Link;
    if CanMove(c, s, t) {
      path := [t];
    } else {
      var u := BlockedWaits(c, s, t);
      RankFits(c, s, u);
      path := ChainMoves(c, s, u);
      ChainLonger(c, s, t, path);
      path := [t] + path;
    }
  }

  /** No thread of any run is ever stuck: whom it waits for in the end can move. */
  lemma NoThreadStuck(c: Config, run: seq<State>, picks: seq<Pick>, k: nat, t: nat) returns (path: seq<nat>)
    requires IsRun(c, run, picks) && k <= |picks| && t <= c.n
    ensures |run| == |picks| + 1 && Shape(c, run[k])
    ensures Alive(c, run[k], t) ==>
      Chain(c, run[k], path) && path[0] == t && Allowed(c, run[k], Pick(path[|path| - 1], false, 0))
  {
    RunInv(c, run, picks, k);
    path := [];
    if Alive(c, run[k], t) {
      path := ChainMoves(c, run[k], t);
    }
  }

  // Data and the mutexes that guard them.

  predicate Owns(s: State, t: nat, l: LockId) {
    l in s.owner && s.owner[l] == t
  }

  /** Every thread is at the same place in both states. */
  predicate SamePlaces(s: State, t: State) {
    s.pcs == t.pcs && s.mon == t.mon
  }

  lemma FlagReader(n: nat, i: nat, pc: PC, stop: bool, other: bool, again: bool)
    requires pc != Unborn && pc != Returned
    ensures PNext(pc, stop, again) != PNext(pc, other, again) ==> Dead in PHeld(n, i, pc)
  {
  }

  lemma FlagMonitor(c: Config, s: State, died: bool, allAte: bool)
    requires Shape(c, s) && s.mon != Finished
    ensures var other := s.(died := died, allAte := allAte);
      MNext(c, other) != MNext(c, s) || s.mon.DieSet? || s.mon.AllSet? ==> Dead in MHeld(s.mon)
  {
  }

  /** A step sets a flag, or comes out otherwise with other flags, only in the owner of dead. */
  lemma FlagsGuarded(c: Config, s: State, k: Pick, died: bool, allAte: bool)
    requires Shape(c, s) && Owned(c, s) && Allowed(c, s, k)
    ensures var other := s.(died := died, allAte := allAte);
      && Allowed(c, other, k)
      && (Step(c, s, k).died != s.died || Step(c, s, k).allAte != s.allAte
            || !SamePlaces(Step(c, s, k), Step(c, other, k)) ==>
            Owns(s, k.t, Dead))
  {
    var other := s.(died := died, allAte := allAte);
    if k.t < c.n {
      PFacts(c, s, k);
      PFacts(c, other, k);
      FlagReader(c.n, k.t, s.pcs[k.t], Stop(s), Stop(other), k.again);
    } else {
      MFacts(c, s, k);
      MFacts(c, other, k);
      FlagMonitor(c, Waited(s, k.wait), died, allAte);
    }
    hide Step, PNext, MNext, PAct, MAct, PHeld, MHeld, PLines, MLines, Owners, MonInRange;
    if Dead in Held(c, s, k.t) {
      OwnerOf(c, s, k.t, Dead);
    }
  }

  lemma MealMonitor(c: Config, s: State, i: nat, count: nat, time: int)
    requires Shape(c, s) && s.mon != Finished && i < c.n
    ensures var other := s.(eaten := s.eaten[i := count], last := s.last[i := time]);
      MNext(c, other) != MNext(c, s) ==> Meal(i) in MHeld(s.mon)
  {
  }

  lemma MealsMain(c: Config, s: State, k: Pick, i: nat, count: nat, time: int)
    requires Shape(c, s) && Owned(c, s) && Allowed(c, s, k) && i < c.n && k.t == c.n
    ensures var other := s.(eaten := s.eaten[i := count], last := s.last[i := time]);
      && Shape(c, other) && Allowed(c, other, k) && Shape(c, Step(c, s, k))
      && Step(c, s, k).eaten == s.eaten && Step(c, s, k).last == s.last
      && (!SamePlaces(Step(c, s, k), Step(c, other, k)) ==> Owns(s, k.t, Meal(i)))
  {
    var other := s.(eaten := s.eaten[i := count], last := s.last[i := time]);
    MFacts(c, s, k);
    MFacts(c, other, k);
    MealMonitor(c, Waited(s, k.wait), i, count, time);
    if Meal(i) in MHeld(s.mon) {
      OwnerOf(c, s, k.t, Meal(i));
    }
    hide Step, PNext, MNext, PAct, MAct, PHeld, MHeld, PLines, MLines, Owners, MonInRange, Owned;
  }

  lemma MealsPhilosopher(c: Config, s: State, k: Pick, i: nat, count: nat, time: int)
    requires Shape(c, s) && Owned(c, s) && Allowed(c, s, k) && i < c.n && k.t < c.n
    ensures var other := s.(eaten := s.eaten[i := count], last := s.last[i := time]);
      && Shape(c, other) && Allowed(c, other, k) && Shape(c, Step(c, s, k))
      && SamePlaces(Step(c, s, k), Step(c, other, k))
      && (Step(c, s, k).eaten[i] != s.eaten[i] || Step(c, s, k).last[i] != s.last[i] ==> Owns(s, k.t, Meal(i)))
  {
    PFacts(c, s, k);
    PFacts(c, s.(eaten := s.eaten[i := count], last := s.last[i := time]), k);
    if s.pcs[k.t] == MealWrite {
      assert Meal(k.t) in PHeld(c.n, k.t, s.pcs[k.t]);
      OwnerOf(c, s, k.t, Meal(k.t));
    }
    hide Step, PNext, PAct, PHeld, PLines, Owners, MonInRange, Owned;
  }

  /** A step writes a meal count or time, or comes out otherwise with another one, only in the owner of that m_philo. */
  lemma MealsGuarded(c: Config, s: State, k: Pick, i: nat, count: nat, time: int)
    requires Shape(c, s) && Owned(c, s) && Allowed(c, s, k) && i < c.n
    ensures var other := s.(eaten := s.eaten[i := count], last := s.last[i := time]);
      && Shape(c, other) && Allowed(c, other, k) && Shape(c, Step(c, s, k))
      && (Step(c, s, k).eaten[i] != s.eaten[i] || Step(c, s, k).last[i] != s.last[i]
            || !SamePlaces(Step(c, s, k), Step(c, other, k)) ==>
            Owns(s, k.t, Meal(i)))
  {
    hide Step, Owned;
    if k.t < c.n {
      MealsPhilosopher(c, s, k, i, count, time);
    } else {
      MealsMain(c, s, k, i, count, time);
    }
  }

  /** Only the owner of print writes a line. */
  lemma LinesGuarded(c: Config, s: State, k: Pick)
    requires Shape(c, s) && Owned(c, s) && Allowed(c, s, k)
    ensures Step(c, s, k).log != s.log ==> Owns(s, k.t, Print)
  {
    if k.t < c.n {
      PFacts(c, s, k);
    } else {
      MFacts(c, s, k);
    }
    if Print in Held(c, s, k.t) {
      OwnerOf(c, s, k.t, Print);
    }
    hide Step, PNext, MNext, PAct, MAct, Owners, MonInRange;
  }

  /** No data race in any run: each step touches shared data only in the thread that owns its mutex. */
  lemma NoDataRace(c: Config, run: seq<State>, picks: seq<Pick>, k: nat, i: nat,
                   died: bool, allAte: bool, count: nat, time: int)
    requires IsRun(c, run, picks) && k < |picks| && i < c.n
    ensures |run| == |picks| + 1 && Shape(c, run[k]) && Shape(c, run[k + 1]) && Allowed(c, run[k], picks[k])
    ensures run[k + 1].died != run[k].died || run[k + 1].allAte != run[k].allAte ==> Owns(run[k], picks[k].t, Dead)
    ensures run[k + 1].eaten[i] != run[k].eaten[i] || run[k + 1].last[i] != run[k].last[i] ==>
      Owns(run[k], picks[k].t, Meal(i))
    ensures run[k + 1].log != run[k].log ==> Owns(run[k], picks[k].t, Print)
    ensures var other := run[k].(died := died, allAte := allAte);
      Allowed(c, other, picks[k]) &&
      (!Owns(run[k], picks[k].t, Dead) ==> SamePlaces(run[k + 1], Step(c, other, picks[k])))
    ensures var other := run[k].(eaten := run[k].eaten[i := count], last := run[k].last[i := time]);
      Shape(c, other) && Allowed(c, other, picks[k]) &&
      (!Owns(run[k], picks[k].t, Meal(i)) ==> SamePlaces(run[k + 1], Step(c, other, picks[k])))
  {
    RunInv(c, run, picks, k);
    RunStep(c, run, picks, k);
    RunShape(c, run, picks, k + 1);
    FlagsGuarded(c, run[k], picks[k], died, allAte);
    MealsGuarded(c, run[k], picks[k], i, count, time);
    LinesGuarded(c, run[k], picks[k]);
    hide Step, IsRun, Owned;
  }
}
