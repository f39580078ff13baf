// "Nothing is printed after a death": false of the program, and exactly when
// (philosopher/philo_death_check.c:52-59, philosopher/philo_utils.c:72-79).

module DiningLast {
  import opened DiningModel
  import opened DiningLocks
  import opened DiningSafety

  /** A "died" line stands before the last line. */
  predicate Followed(log: seq<Line>) {
    log != [] && DeathLines(log[..|log| - 1]) > 0
  }

  /** In print, about to read the two flags. */
  predicate ReadsToPrint(pc: PC) {
    match pc
    case SayTook1(p) => p == Look(Read)
    case SayTook2(p) => p == Look(Read)
    case SayEating(p) => p == Look(Read)
    case SaySleeping(p) => p == Look(Read)
    case SayThinking(p) => p == Look(Read)
    case _ => false
  }

  /** A philosopher reads the flags for print after the monitor has left print and before it sets philo_died. */
  predicate Slip(c: Config, s: State, k: Pick)
    requires Shape(c, s)
  {
    k.t < c.n && ReadsToPrint(s.pcs[k.t]) && s.mon.DieLock?
  }

  ghost predicate Slipped(c: Config, run: seq<State>, picks: seq<Pick>, k: nat)
    requires IsRun(c, run, picks) && k <= |picks|
  {
    exists q: nat :: q < k && Slip(c, run[q], picks[q])
  }

  ghost predicate SomePending(s: State) {
    exists i :: 0 <= i < |s.pcs| && Pending(s.pcs[i])
  }

  /** A line has followed a "died" line, or is bound to. */
  ghost predicate Trails(s: State) {
    DeathLines(s.log) > 0 && (Followed(s.log) || SomePending(s))
  }

  lemma PendingChanges(pc: PC, i: nat, stop: bool, again: bool)
    requires pc != Unborn && pc != Returned
    ensures PLines(i, pc) != [] ==> Pending(pc)
    ensures PLines(i, pc) == [] ==> (Pending(PNext(pc, stop, again)) <==> Pending(pc) || (ReadsToPrint(pc) && !stop))
  {
  }

  lemma SaidFollows(log: seq<Line>, lines: seq<Line>)
    requires |lines| <= 1
    ensures lines == [] ==> log + lines == log
    ensures lines != [] ==> (Followed(log + lines) <==> DeathLines(log) > 0)
  {
    if lines == [] {
      assert log + lines == log;
    } else {
      assert (log + lines)[..|log|] == log;
    }
  }

  /** A philosopher that reads the flags for print holds print and dead. */
  lemma ReaderHolds(c: Config, s: State, i: nat)
    requires Shape(c, s) && Owned(c, s) && i < c.n && ReadsToPrint(s.pcs[i])
    ensures Print in s.owner && s.owner[Print] == i && Dead in s.owner && s.owner[Dead] == i
  {
    OwnerOf(c, s, i, Print);
    OwnerOf(c, s, i, Dead);
  }

  lemma MonitorHolds(c: Config, s: State)
    requires Shape(c, s) && Owned(c, s)
    ensures s.mon.SayDied? && (s.mon.p.Leave? || s.mon.p.Write?) ==> Print in s.owner && s.owner[Print] == c.n
    ensures s.mon.DieSet? ==> Dead in s.owner && s.owner[Dead] == c.n
  {
    if s.mon.SayDied? && (s.mon.p.Leave? || s.mon.p.Write?) {
      OwnerOf(c, s, c.n, Print);
    }
    if s.mon.DieSet? {
      OwnerOf(c, s, c.n, Dead);
    }
  }

  /** After a death has been announced, the flags read clear exactly for a slip. */
  lemma ClearIsSlip(c: Config, s: State, i: nat)
    requires Inv(c, s) && i < c.n && ReadsToPrint(s.pcs[i])
    ensures s.mon.DieLock? <==> DeathLines(s.log) > 0 && !Stop(s)
  {
    ReaderHolds(c, s, i);
    MonitorHolds(c, s);
    hide Owned, Spawned, MealsFit, LateFits, DeathLines;
  }

  lemma TrailsPhilosopher(c: Config, s: State, k: Pick)
    requires Inv(c, s) && Allowed(c, s, k) && k.t < c.n
    ensures Trails(Step(c, s, k)) <==> Trails(s) || Slip(c, s, k)
  {
    PFacts(c, s, k);
    var pc, t := s.pcs[k.t], Step(c, s, k);
    NoDeathByPhilosopher(k.t, pc);
    DeathLinesAppend(s.log, PLines(k.t, pc));
    SaidFollows(s.log, PLines(k.t, pc));
    PendingChanges(pc, k.t, Stop(s), k.again);
    if ReadsToPrint(pc) {
      ClearIsSlip(c, s, k.t);
    }
    hide Inv, Step, Allowed, PNext, PLines, Pending, ReadsToPrint, DeathLines, Followed, Owners, PAct;
    assert t.pcs[k.t] == PNext(pc, Stop(s), k.again);
    assert forall i :: 0 <= i < c.n && i != k.t ==> t.pcs[i] == s.pcs[i];
    assert Pending(s.pcs[k.t]) ==> SomePending(s);
    assert Pending(t.pcs[k.t]) ==> SomePending(t);
    if SomePending(s) && !Pending(s.pcs[k.t]) {
      var i :| 0 <= i < |s.pcs| && Pending(s.pcs[i]);
      assert Pending(t.pcs[i]);
    }
    if SomePending(t) && !Pending(t.pcs[k.t]) {
      var i :| 0 <= i < |t.pcs| && Pending(t.pcs[i]);
      assert Pending(s.pcs[i]);
    }
  }

  lemma NonePendingNow(c: Config, s: State)
    requires Inv(c, s) && s.mon.SayDied? && s.mon.p.Write?
    ensures !SomePending(s) && DeathLines(s.log) == 0
  {
    MonitorHolds(c, s);
    if SomePending(s) {
      var i :| 0 <= i < |s.pcs| && Pending(s.pcs[i]);
      PendingHoldsPrint(c, s, i);
    }
  }

  lemma TrailsMonitor(c: Config, s: State, k: Pick)
    requires Inv(c, s) && Allowed(c, s, k) && k.t == c.n
    ensures Trails(Step(c, s, k)) <==> Trails(s)
  {
    MFacts(c, s, k);
    var t := Step(c, s, k);
    DeathLinesAppend(s.log, MLines(s.mon));
    SaidFollows(s.log, MLines(s.mon));
    if MLines(s.mon) != [] {
      NonePendingNow(c, s);
    }
    assert s.mon.Spawn? && s.mon.i < c.n ==> !Pending(s.pcs[s.mon.i]) by {
      assert Spawned(c, s);
    }
    hide Inv, Step, Allowed, MNext, DeathLines, Followed, Owners, MAct;
    assert forall i :: 0 <= i < c.n ==> (Pending(t.pcs[i]) <==> Pending(s.pcs[i]));
    if SomePending(s) {
      var i :| 0 <= i < |s.pcs| && Pending(s.pcs[i]);
      assert Pending(t.pcs[i]);
    }
  }

  lemma TrailsFirst(c: Config, run: seq<State>, picks: seq<Pick>)
    requires IsRun(c, run, picks)
    ensures |run| == |picks| + 1 && !Trails(run[0]) && !Slipped(c, run, picks, 0)
  {
  }

  lemma SlippedNext(c: Config, run: seq<State>, picks: seq<Pick>, k: nat)
    requires IsRun(c, run, picks) && k < |picks|
    ensures |run| == |picks| + 1 && Shape(c, run[k])
    ensures Slipped(c, run, picks, k + 1) <==> Slipped(c, run, picks, k) || Slip(c, run[k], picks[k])
  {
    hide Slip, Shape;
  }

  lemma TrailsNext(c: Config, run: seq<State>, picks: seq<Pick>, k: nat)
    requires IsRun(c, run, picks) && k < |picks|
    ensures |run| == |picks| + 1 && Shape(c, run[k])
    ensures Trails(run[k + 1]) <==> Trails(run[k]) || Slip(c, run[k], picks[k])
  {
    RunInv(c, run, picks, k);
    RunStep(c, run, picks, k);
    assert picks[k].t >= c.n ==> !Slip(c, run[k], picks[k]);
    hide *;
    StepOf(c, run[k], picks[k]);
    if picks[k].t < c.n {
      TrailsPhilosopher(c, run[k], picks[k]);
    } else {
      TrailsMonitor(c, run[k], picks[k]);
    }
  }

  lemma StepOf(c: Config, s: State, k: Pick)
    requires Shape(c, s) && Allowed(c, s, k)
    ensures k.t <= c.n
  {
  }

  lemma {:induction false} TrailsExactly(c: Config, run: seq<State>, picks: seq<Pick>, k: nat)
    requires IsRun(c, run, picks) && k <= |picks|
    ensures Trails(run[k]) <==> Slipped(c, run, picks, k)
  {
    RunShape(c, run, picks, k);
    hide *;
    if k == 0 {
      TrailsFirst(c, run, picks);
    } else {
      TrailsExactly(c, run, picks, k - 1);
      TrailsNext(c, run, picks, k - 1);
      SlippedNext(c, run, picks, k - 1);
    }
  }

  lemma DoneTrails(c: Config, s: State)
    requires Shape(c, s) && AllDone(c, s)
    ensures Trails(s) <==> Followed(s.log)
  {
    assert !SomePending(s);
  }

  /** In a finished run a line follows "died" exactly when some philosopher slipped in between. */
  lemma DiedLastExactly(c: Config, run: seq<State>, picks: seq<Pick>)
    requires IsRun(c, run, picks) && AllDone(c, run[|picks|])
    ensures Followed(run[|picks|].log) <==> Slipped(c, run, picks, |picks|)
  {
    RunShape(c, run, picks, |picks|);
    TrailsExactly(c, run, picks, |picks|);
    DoneTrails(c, run[|picks|]);
  }

  // A run in which it happens: two philosophers, the first is announced dead and then takes a fork.

  const TWO: Config := Config(2, -1, 5)

  function Scene(owner: map<LockId, nat>, pc: PC, mon: MPC, log: seq<Line>, now: int): State {
    State(owner, [pc, Born], [0, 0], [0, 0], mon, false, false, log, 0, now)
  }

  lemma Extend(c: Config, run: seq<State>, picks: seq<Pick>, k: Pick)
    requires IsRun(c, run, picks) && Allowed(c, run[|picks|], k)
    ensures IsRun(c, run + [Step(c, run[|picks|], k)], picks + [k])
  {
    RunShape(c, run, picks, |picks|);
    StepShape(c, run[|picks|], k);
    var more, on := run + [Step(c, run[|picks|], k)], picks + [k];
    hide Step, Allowed, Shape, Initial;
    forall i | 0 <= i < |on| ensures Allowed(c, more[i], on[i]) && more[i + 1] == Step(c, more[i], on[i]) {
      if i < |picks| {
        RunStep(c, run, picks, i);
      }
    }
  }

  /** The first philosopher can move from s, and gets to t. */
  predicate FirstTo(s: State, t: State) {
    && |s.pcs| == 2 && !Stop(s) && s.pcs[0] != Unborn && s.pcs[0] != Returned && s.pcs[0] != MealWrite
    && (PAct(2, 0, s.pcs[0]).Lock? ==> PAct(2, 0, s.pcs[0]).l !in s.owner)
    && t == s.(owner := Owners(s.owner, 0, PAct(2, 0, s.pcs[0])), pcs := s.pcs[0 := PNext(s.pcs[0], false, false)],
               log := s.log + PLines(0, s.pcs[0]))
  }

  /** The clock goes on by wait, and the monitor can move from s to t. */
  predicate MonitorTo(s: State, wait: nat, t: State) {
    && Shape(TWO, s) && !Stop(s)
    && s.mon != Finished && !s.mon.Join? && !s.mon.DieSet? && !s.mon.AllSet? && !s.mon.Spawn?
    && (MAct(s.mon).Lock? ==> MAct(s.mon).l !in s.owner)
    && t == s.(owner := Owners(s.owner, 2, MAct(s.mon)), mon := MNext(TWO, Waited(s, wait)), now := s.now + wait,
               log := s.log + MLines(s.mon))
  }

  lemma FirstMoves(run: seq<State>, picks: seq<Pick>, s: State, t: State) returns (r: seq<State>, p: seq<Pick>)
    requires IsRun(TWO, run, picks) && run[|picks|] == s && FirstTo(s, t)
    ensures IsRun(TWO, r, p) && |r| == |p| + 1 && r[|p|] == t
  {
    RunShape(TWO, run, picks, |picks|);
    var k := Pick(0, false, 0);
    assert Allowed(TWO, s, k);
    PFacts(TWO, s, k);
    Extend(TWO, run, picks, k);
    r, p := run + [Step(TWO, s, k)], picks + [k];
    hide PNext, PAct, Owners, PLines;
  }

  lemma MonitorMoves(run: seq<State>, picks: seq<Pick>, s: State, wait: nat, t: State)
    returns (r: seq<State>, p: seq<Pick>)
    requires IsRun(TWO, run, picks) && run[|picks|] == s && MonitorTo(s, wait, t)
    ensures IsRun(TWO, r, p) && |r| == |p| + 1 && r[|p|] == t
  {
    var k := Pick(2, false, wait);
    assert Allowed(TWO, s, k);
    MFacts(TWO, s, k);
    Extend(TWO, run, picks, k);
    r, p := run + [Step(TWO, s, k)], picks + [k];
    hide MNext, MAct, Owners, MLines;
  }

  lemma SpawnStart()
    ensures IsRun(TWO, [State(map[], [Unborn, Unborn], [0, 0], [0, 0], Spawn(0), false, false, [], 0, 0)], [])
  {
  }

  lemma SpawnSteps()
    ensures var s := State(map[], [Unborn, Unborn], [0, 0], [0, 0], Spawn(0), false, false, [], 0, 0);
      var t, u := s.(pcs := [Born, Unborn], mon := Spawn(1)), s.(pcs := [Born, Born], mon := Spawn(2));
      var main := Pick(2, false, 0);
      && Shape(TWO, s) && Allowed(TWO, s, main) && Step(TWO, s, main) == t
      && Shape(TWO, t) && Allowed(TWO, t, main) && Step(TWO, t, main) == u
      && Shape(TWO, u) && Allowed(TWO, u, main) && Step(TWO, u, main) == Scene(map[], Born, DiedAsk, [], 0)
  {
  }

  /** Main starts the two threads. */
  lemma Spawning() returns (r: seq<State>, p: seq<Pick>)
    ensures IsRun(TWO, r, p) && r[|p|] == Scene(map[], Born, DiedAsk, [], 0)
  {
    var s := State(map[], [Unborn, Unborn], [0, 0], [0, 0], Spawn(0), false, false, [], 0, 0);
    var t, u := s.(pcs := [Born, Unborn], mon := Spawn(1)), s.(pcs := [Born, Born], mon := Spawn(2));
    var main := Pick(2, false, 0);
    r, p := [s], [];
    SpawnStart();
    SpawnSteps();
    hide Step, Allowed, Shape, IsRun, Scene;
    Extend(TWO, r, p, main);
    r, p := r + [t], p + [main];
    Extend(TWO, r, p, main);
    r, p := r + [u], p + [main];
    Extend(TWO, r, p, main);
    r, p := r + [Scene(map[], Born, DiedAsk, [], 0)], p + [main];
  }

  // The scenes of the run: the monitor's, then the philosopher's.

  function Scanning(i: nat): State {
    if i == 0 then Scene(map[], Born, DiedAsk, [], 0)
    else if i == 1 then Scene(map[Dead := 2], Born, DiedRead, [], 0)
    else if i == 2 then Scene(map[Dead := 2], Born, DiedAnswer(false), [], 0)
    else if i == 3 then Scene(map[], Born, ScanLock(0), [], 0)
    else Scene(map[Meal(0) := 2], Born, ScanTest(0), [], 0)
  }

  function Telling(i: nat): State {
    var one, two, three := map[Meal(0) := 2], map[Meal(0) := 2, Print := 2], map[Meal(0) := 2, Print := 2, Dead := 2];
    if i == 0 then Scene(one, Born, SayDied(0, Queue), [], 6)
    else if i == 1 then Scene(two, Born, SayDied(0, Look(Ask)), [], 6)
    else if i == 2 then Scene(three, Born, SayDied(0, Look(Read)), [], 6)
    else if i == 3 then Scene(three, Born, SayDied(0, Look(Answer(false))), [], 6)
    else if i == 4 then Scene(two, Born, SayDied(0, Write(false)), [], 6)
    else if i == 5 then Scene(two, Born, SayDied(0, Leave), [Line(0, Died)], 6)
    else Scene(one, Born, DieLock(0), [Line(0, Died)], 6)
  }

  function Waking(i: nat): State {
    var one, died := map[Meal(0) := 2], [Line(0, Died)];
    if i == 0 then Scene(one, Born, DieLock(0), died, 6)
    else if i == 1 then Scene(one, Test(Ask), DieLock(0), died, 6)
    else if i == 2 then Scene(one[Dead := 0], Test(Read), DieLock(0), died, 6)
    else if i == 3 then Scene(one[Dead := 0], Test(Answer(false)), DieLock(0), died, 6)
    else if i == 4 then Scene(one, Take1, DieLock(0), died, 6)
    else Scene(one[Fork(0) := 0], SayTook1(Queue), DieLock(0), died, 6)
  }

  function Speaking(i: nat): State {
    var two, died := map[Meal(0) := 2, Fork(0) := 0], [Line(0, Died)];
    if i == 0 then Scene(two, SayTook1(Queue), DieLock(0), died, 6)
    else if i == 1 then Scene(two[Print := 0], SayTook1(Look(Ask)), DieLock(0), died, 6)
    else if i == 2 then Scene(two[Print := 0][Dead := 0], SayTook1(Look(Read)), DieLock(0), died, 6)
    else if i == 3 then Scene(two[Print := 0][Dead := 0], SayTook1(Look(Answer(false))), DieLock(0), died, 6)
    else if i == 4 then Scene(two[Print := 0], SayTook1(Write(false)), DieLock(0), died, 6)
    else Scene(two[Print := 0], SayTook1(Leave), DieLock(0), died + [Line(0, TookFork)], 6)
  }

  lemma ScanningMoves(i: nat)
    requires i < 4
    ensures MonitorTo(Scanning(i), 0, Scanning(i + 1))
  {
  }

  lemma StarvedMove()
    ensures MonitorTo(Scanning(4), 6, Telling(0))
  {
  }

  lemma TellingBegins(i: nat)
    requires i < 3
    ensures MonitorTo(Telling(i), 0, Telling(i + 1))
  {
  }

  lemma TellingEnds(i: nat)
    requires 3 <= i < 6
    ensures MonitorTo(Telling(i), 0, Telling(i + 1))
  {
  }

  lemma TellingMoves(i: nat)
    requires i < 6
    ensures MonitorTo(Telling(i), 0, Telling(i + 1))
  {
    hide MonitorTo, Telling;
    if i < 3 {
      TellingBegins(i);
    } else {
      TellingEnds(i);
    }
  }

  lemma WakingMoves(i: nat)
    requires i < 5
    ensures FirstTo(Waking(i), Waking(i + 1))
  {
  }

  lemma SpeakingMoves(i: nat)
    requires i < 5
    ensures FirstTo(Speaking(i), Speaking(i + 1))
  {
  }

  lemma ScenesMeet()
    ensures Telling(6) == Waking(0) && Waking(5) == Speaking(0)
    ensures Speaking(5).log == [Line(0, Died), Line(0, TookFork)] && Followed(Speaking(5).log)
  {
    var lines := [Line(0, Died), Line(0, TookFork)];
    assert lines[..1] == [Line(0, Died)] && lines[..1][..0] == [];
  }

  /** The monitor finds that the first philosopher has not eaten for six, and prints it. */
  lemma Announcing() returns (r: seq<State>, p: seq<Pick>)
    ensures IsRun(TWO, r, p) && |r| == |p| + 1 && r[|p|] == Telling(6)
  {
    r, p := Spawning();
    assert Scanning(0) == Scene(map[], Born, DiedAsk, [], 0);
    hide IsRun, Scanning, Telling, MonitorTo;
    for i := 0 to 4
      invariant IsRun(TWO, r, p) && |r| == |p| + 1 && r[|p|] == Scanning(i)
    {
      ScanningMoves(i);
      r, p := MonitorMoves(r, p, Scanning(i), 0, Scanning(i + 1));
    }
    StarvedMove();
    r, p := MonitorMoves(r, p, Scanning(4), 6, Telling(0));
    for i := 0 to 6
      invariant IsRun(TWO, r, p) && |r| == |p| + 1 && r[|p|] == Telling(i)
    {
      TellingMoves(i);
      r, p := MonitorMoves(r, p, Telling(i), 0, Telling(i + 1));
    }
  }

  /** The log of a run can go on after "died": before the flag is set, the philosopher takes a fork and says so. */
  lemma DiedNotLast() returns (r: seq<State>, p: seq<Pick>)
    ensures IsRun(TWO, r, p) && |r| == |p| + 1
    ensures r[|p|].log == [Line(0, Died), Line(0, TookFork)] && Followed(r[|p|].log)
  {
    r, p := Announcing();
    ScenesMeet();
    hide IsRun, Telling, Waking, Speaking, FirstTo;
    for i := 0 to 5
      invariant IsRun(TWO, r, p) && |r| == |p| + 1 && r[|p|] == Waking(i)
    {
      WakingMoves(i);
      r, p := FirstMoves(r, p, Waking(i), Waking(i + 1));
    }
    for i := 0 to 5
      invariant IsRun(TWO, r, p) && |r| == |p| + 1 && r[|p|] == Speaking(i)
    {
      SpeakingMoves(i);
      r, p := FirstMoves(r, p, Speaking(i), Speaking(i + 1));
    }
  }
}
