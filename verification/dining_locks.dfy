// Who holds which mutex, and why the threads cannot wait for one another in a circle.

module DiningLocks {
  import opened DiningModel

  function CheckHeld(k: Check): set<LockId> {
    if k.Ask? then {} else {Dead}
  }

  function PrintHeld(p: Printing): set<LockId> {
    match p
    case Queue => {}
    case Look(k) => {Print} + CheckHeld(k)
    case _ => {Print}
  }

  function NapHeld(z: Nap): set<LockId> {
    if z.Peek? then CheckHeld(z.k) else {}
  }

  /** The mutexes philosopher i has locked and not unlocked at this place. */
  function PHeld(n: nat, i: nat, pc: PC): set<LockId> {
    var one, both := {First(n, i)}, {First(n, i), Second(n, i)};
    match pc
    case Test(k) => CheckHeld(k)
    case SayTook1(p) => one + PrintHeld(p)
    case Take2 => one
    case SayTook2(p) => both + PrintHeld(p)
    case SayEating(p) => both + PrintHeld(p)
    case MealLock => both
    case MealWrite => both + {Meal(i)}
    case MealUnlock => both + {Meal(i)}
    case EatNap(z) => both + NapHeld(z)
    case Drop1 => both
    case Drop2 => {Second(n, i)}
    case SaySleeping(p) => PrintHeld(p)
    case SleepNap(z) => NapHeld(z)
    case SayThinking(p) => PrintHeld(p)
    case ThinkNap(z) => NapHeld(z)
    case _ => {}
  }

  function MHeld(mon: MPC): set<LockId> {
    match mon
    case DiedRead => {Dead}
    case DiedAnswer(_) => {Dead}
    case EatRead(i) => {Meal(i)}
    case EatUnlock(i, _) => {Meal(i)}
    case AllSet => {Dead}
    case AllUnlock => {Dead}
    case ScanTest(i) => {Meal(i)}
    case ScanUnlock(i) => {Meal(i)}
    case SayDied(i, p) => {Meal(i)} + PrintHeld(p)
    case DieLock(i) => {Meal(i)}
    case DieSet(i) => {Meal(i), Dead}
    case DieUnlock(i) => {Meal(i), Dead}
    case DieRelease(i) => {Meal(i)}
    case _ => {}
  }

  function Held(c: Config, s: State, t: nat): set<LockId>
    requires Shape(c, s) && t <= c.n
  {
    if t < c.n then PHeld(c.n, t, s.pcs[t]) else MHeld(s.mon)
  }

  /** The held set before and after a step on a mutex. */
  predicate Tracks(before: set<LockId>, act: Act, after: set<LockId>) {
    match act
    case Lock(l) => l !in before && after == before + {l}
    case Unlock(l) => l in before && after == before - {l}
    case Local => after == before
  }

  lemma ForksDiffer(n: nat, i: nat)
    requires n >= 2 && i < n
    ensures First(n, i) != Second(n, i)
  {
  }

  lemma PrintTracks(p: Printing, stop: bool)
    requires !p.Leave?
    ensures Tracks(PrintHeld(p), PrintAct(p), PrintHeld(PrintNext(p, stop)))
  {
  }

  lemma NapTracks(z: Nap, stop: bool, again: bool)
    ensures Tracks(NapHeld(z), NapAct(z), match NapNext(z, stop, again) case On(y) => NapHeld(y) case Over => {})
  {
  }

  lemma TracksBeside(base: set<LockId>, before: set<LockId>, act: Act, after: set<LockId>)
    requires Tracks(before, act, after) && (act.Local? || act.l !in base)
    ensures Tracks(base + before, act, base + after)
  {
  }

  /** What print does to the mutexes, on top of forks held. */
  lemma PrintTracksBeside(base: set<LockId>, p: Printing, stop: bool)
    requires Print !in base && Dead !in base
    ensures if p.Leave? then Tracks(base + PrintHeld(p), PrintAct(p), base)
            else Tracks(base + PrintHeld(p), PrintAct(p), base + PrintHeld(PrintNext(p, stop)))
    ensures PrintHeld(Queue) == {} && base + {} == base
  {
    if !p.Leave? {
      PrintTracks(p, stop);
      TracksBeside(base, PrintHeld(p), PrintAct(p), PrintHeld(PrintNext(p, stop)));
    }
  }

  lemma NapTracksBeside(base: set<LockId>, z: Nap, stop: bool, again: bool)
    requires Dead !in base
    ensures match NapNext(z, stop, again)
            case On(y) => Tracks(base + NapHeld(z), NapAct(z), base + NapHeld(y))
            case Over => Tracks(base + NapHeld(z), NapAct(z), base)
    ensures NapHeld(Head) == {} && base + {} == base
  {
    NapTracks(z, stop, again);
    var after := match NapNext(z, stop, again) case On(y) => NapHeld(y) case Over => {};
    TracksBeside(base, NapHeld(z), NapAct(z), after);
    assert base + {} == base;
  }

  lemma CheckTracks(k: Check, stop: bool)
    ensures k.Answer? ==> Tracks(CheckHeld(k), CheckAct(k), {})
    ensures !k.Answer? ==> Tracks(CheckHeld(k), CheckAct(k), CheckHeld(CheckNext(k, stop)))
    ensures CheckHeld(Ask) == {}
  {
  }

  lemma SayingTracks(n: nat, i: nat, pc: PC, stop: bool, again: bool)
    requires n >= 2 && i < n && (pc.SayTook1? || pc.SayTook2? || pc.SayEating? || pc.SaySleeping? || pc.SayThinking?)
    ensures Tracks(PHeld(n, i, pc), PAct(n, i, pc), PHeld(n, i, PNext(pc, stop, again)))
  {
    var base :=
      if pc.SayTook1? then {First(n, i)}
      else if pc.SayTook2? || pc.SayEating? then {First(n, i), Second(n, i)}
      else {};
    PrintTracksBeside(base, pc.p, stop);
    EmptyBeside(PrintHeld(pc.p));
    if !pc.p.Leave? {
      EmptyBeside(PrintHeld(PrintNext(pc.p, stop)));
    }
    hide PrintHeld, PrintAct, PrintNext, Tracks, First, Second;
  }

  lemma NappingTracks(n: nat, i: nat, pc: PC, stop: bool, again: bool)
    requires n >= 2 && i < n && (pc.EatNap? || pc.SleepNap? || pc.ThinkNap?)
    ensures Tracks(PHeld(n, i, pc), PAct(n, i, pc), PHeld(n, i, PNext(pc, stop, again)))
  {
    var base := if pc.EatNap? then {First(n, i), Second(n, i)} else {};
    NapTracksBeside(base, pc.z, stop, again);
    EmptyBeside(NapHeld(pc.z));
    var next := NapNext(pc.z, stop, again);
    if next.On? {
      EmptyBeside(NapHeld(next.z));
    }
    hide NapHeld, NapAct, NapNext, Tracks, First, Second;
  }

  lemma PTracks(n: nat, i: nat, pc: PC, stop: bool, again: bool)
    requires n >= 2 && i < n && pc != Unborn && pc != Returned
    ensures Tracks(PHeld(n, i, pc), PAct(n, i, pc), PHeld(n, i, PNext(pc, stop, again)))
  {
    ForksDiffer(n, i);
    hide First, Second, PrintHeld, PrintAct, PrintNext, NapHeld, NapAct, NapNext;
    if pc.SayTook1? || pc.SayTook2? || pc.SayEating? || pc.SaySleeping? || pc.SayThinking? {
      SayingTracks(n, i, pc, stop, again);
    } else if pc.EatNap? || pc.SleepNap? || pc.ThinkNap? {
      NappingTracks(n, i, pc, stop, again);
    } else {
      PrintTracksBeside({First(n, i)}, Queue, stop);
      NapTracksBeside({}, Head, stop, again);
      if pc.Test? {
        CheckTracks(pc.k, stop);
        hide CheckHeld, CheckAct, CheckNext;
      }
    }
  }

  lemma EmptyBeside(s: set<LockId>)
    ensures {} + s == s
  {
  }

  lemma MTracks(c: Config, s: State)
    requires Shape(c, s) && s.mon != Finished
    ensures Tracks(MHeld(s.mon), MAct(s.mon), MHeld(MNext(c, s)))
  {
    match s.mon
    case SayDied(i, p) => if !p.Leave? { PrintTracks(p, Stop(s)); }
    case _ =>
  }

  function Helds(c: Config, s: State): (h: seq<set<LockId>>)
    requires Shape(c, s)
    ensures |h| == c.n + 1 && forall t :: 0 <= t <= c.n ==> h[t] == Held(c, s, t)
  {
    seq(c.n + 1, t requires 0 <= t <= c.n => Held(c, s, t))
  }

  /** The owner map lists exactly the mutexes held, each with the one thread holding it. */
  ghost predicate Exact(owner: map<LockId, nat>, held: seq<set<LockId>>) {
    && (forall l :: l in owner ==> owner[l] < |held| && l in held[owner[l]])
    && (forall t, l :: 0 <= t < |held| && l in held[t] ==> l in owner && owner[l] == t)
  }

  /** The owner map says exactly what the program counters say. */
  ghost predicate Owned(c: Config, s: State)
    requires Shape(c, s)
  {
    Exact(s.owner, Helds(c, s))
  }

  lemma OwnerOf(c: Config, s: State, t: nat, l: LockId)
    requires Shape(c, s) && Owned(c, s) && t <= c.n && l in Held(c, s, t)
    ensures l in s.owner && s.owner[l] == t
  {
    hide Held;
    assert Helds(c, s)[t] == Held(c, s, t);
  }

  /** Locking only a free mutex and unlocking only one's own keeps the owner map exact. */
  lemma OwnersExact(owner: map<LockId, nat>, held: seq<set<LockId>>, t: nat, act: Act, after: set<LockId>)
    requires Exact(owner, held) && t < |held|
    requires Tracks(held[t], act, after) && (act.Lock? ==> act.l !in owner)
    ensures Exact(Owners(owner, t, act), held[t := after])
  {
    var owner', held' := Owners(owner, t, act), held[t := after];
    if act.Unlock? {
      assert act.l in held[t] && owner[act.l] == t;
    }
    forall u, l | 0 <= u < |held'| && l in held'[u] ensures l in owner' && owner'[l] == u {
      if u != t { assert l in held[u]; }
      if !act.Lock? || l != act.l { assert l in held[u]; }
    }
    forall l | l in owner' ensures owner'[l] < |held'| && l in held'[owner'[l]] {
      if !act.Lock? || l != act.l { assert l in owner && l in held[owner[l]]; }
    }
  }

  /** Exactly the threads main has not reached yet are unborn; main joins in order. */
  predicate Spawned(c: Config, s: State)
    requires Shape(c, s)
  {
    && (forall i :: 0 <= i < c.n ==> (s.pcs[i] == Unborn <==> s.mon.Spawn? && s.mon.i <= i))
    && (s.mon.Join? ==> forall j :: 0 <= j < s.mon.i ==> s.pcs[j] == Returned)
    && (s.mon == Finished ==> forall j :: 0 <= j < c.n ==> s.pcs[j] == Returned)
  }

  lemma NeverUnborn(pc: PC, stop: bool, again: bool)
    requires pc != Unborn && pc != Returned
    ensures PNext(pc, stop, again) != Unborn
  {
  }

  lemma StepSpawnedMain(c: Config, s: State, k: Pick)
    requires Shape(c, s) && Spawned(c, s) && Allowed(c, s, k) && k.t == c.n
    ensures Shape(c, Step(c, s, k)) && Spawned(c, Step(c, s, k))
  {
    MFacts(c, s, k);
    hide Step, Allowed, PNext, PAct, MAct, PLines, MLines, Owners, MonInRange;
  }

  lemma StepSpawned(c: Config, s: State, k: Pick)
    requires Shape(c, s) && Spawned(c, s) && Allowed(c, s, k)
    ensures Shape(c, Step(c, s, k)) && Spawned(c, Step(c, s, k))
  {
    if k.t < c.n {
      PFacts(c, s, k);
      NeverUnborn(s.pcs[k.t], Stop(s), k.again);
      hide Step, Allowed, PNext, PAct, MAct, MNext, PLines, MLines, Owners, MonInRange;
    } else {
      StepSpawnedMain(c, s, k);
      hide *;
    }
  }

  lemma StepTracks(c: Config, s: State, k: Pick)
    requires Shape(c, s) && Spawned(c, s) && Allowed(c, s, k)
    ensures Shape(c, Step(c, s, k))
    ensures Tracks(Held(c, s, k.t), ActOf(c, s, k.t), Held(c, Step(c, s, k), k.t))
    ensures forall u :: 0 <= u <= c.n && u != k.t ==> Held(c, Step(c, s, k), u) == Held(c, s, u)
    ensures Step(c, s, k).owner == Owners(s.owner, k.t, ActOf(c, s, k.t))
  {
    hide PHeld, MHeld, Move, PMove, MMove, Owners, Tracks, PNext, MNext, PAct, MAct;
    if k.t < c.n {
      PFacts(c, s, k);
      PTracks(c.n, k.t, s.pcs[k.t], Stop(s), k.again);
    } else {
      MFacts(c, s, k);
      MTracks(c, Waited(s, k.wait));
      NothingHeldAtBirth(c.n);
    }
  }

  lemma NothingHeldAtBirth(n: nat)
    ensures forall i :: PHeld(n, i, Unborn) == {}
    ensures forall i :: PHeld(n, i, Born) == {}
    ensures forall i :: PHeld(n, i, Returned) == {}
    ensures forall i :: MHeld(Spawn(i)) == {}
    ensures forall i :: MHeld(Join(i)) == {}
    ensures MHeld(Finished) == {}
  {
  }

  lemma StepOwned(c: Config, s: State, k: Pick)
    requires Shape(c, s) && Spawned(c, s) && Owned(c, s) && Allowed(c, s, k)
    ensures Shape(c, Step(c, s, k)) && Owned(c, Step(c, s, k))
  {
    StepTracks(c, s, k);
    var act := ActOf(c, s, k.t);
    assert act.Lock? ==> act.l !in s.owner;
    hide Held, Step, ActOf, Exact, Owners, Tracks;
    var s' := Step(c, s, k);
    var held := Helds(c, s);
    OwnersExact(s.owner, held, k.t, act, Held(c, s', k.t));
    assert Helds(c, s') == held[k.t := Held(c, s', k.t)];
  }

  // The order in which every thread takes its mutexes: the even-numbered forks from
  // the highest to fork 0, then the odd-numbered ones, then m_philo, print, dead.

  function Rank(n: nat, l: LockId): int {
    match l
    case Fork(i) => if i % 2 == 0 then n - i else n + i + 1
    case Meal(_) => 2 * n + 1
    case Print => 2 * n + 2
    case Dead => 2 * n + 3
  }

  predicate Below(n: nat, held: set<LockId>, act: Act) {
    act.Lock? ==> forall h :: h in held ==> Rank(n, h) < Rank(n, act.l)
  }

  /** Also for odd n, where the last philosopher takes forks n - 1 and 0, both even. */
  lemma ForksAscend(n: nat, i: nat)
    requires n >= 2 && i < n
    ensures Rank(n, First(n, i)) < Rank(n, Second(n, i)) <= 2 * n
  {
  }

  lemma PBelow(n: nat, i: nat, pc: PC)
    requires n >= 2 && i < n
    ensures Below(n, PHeld(n, i, pc), PAct(n, i, pc))
  {
    ForksAscend(n, i);
  }

  lemma MBelow(n: nat, mon: MPC)
    ensures Below(n, MHeld(mon), MAct(mon))
  {
  }

  lemma {:induction false} Highest(n: nat, locks: set<LockId>) returns (top: LockId)
    requires locks != {}
    ensures top in locks && forall l :: l in locks ==> Rank(n, l) <= Rank(n, top)
  {
    top :| top in locks;
    if locks != {top} {
      var other := Highest(n, locks - {top});
      if Rank(n, other) > Rank(n, top) {
        top := other;
      }
    }
  }

  /** The owner of the highest mutex held can move: what it wants next ranks higher still, so is free. */
  lemma HolderMoves(c: Config, s: State, top: LockId)
    requires Shape(c, s) && Owned(c, s) && top in s.owner
    requires forall l :: l in s.owner ==> Rank(c.n, l) <= Rank(c.n, top)
    ensures s.owner[top] <= c.n && CanMove(c, s, s.owner[top])
  {
    var t := s.owner[top];
    NothingHeldAtBirth(c.n);
    hide PHeld, MHeld, Rank;
    if t < c.n {
      PBelow(c.n, t, s.pcs[t]);
    } else {
      MBelow(c.n, s.mon);
    }
  }

  /** No deadlock: until every thread has returned, some thread can move. */
  lemma SomeoneMoves(c: Config, s: State)
    requires Shape(c, s) && Spawned(c, s) && Owned(c, s) && !AllDone(c, s)
    ensures exists k :: Allowed(c, s, k)
  {
    var t := c.n;
    if s.owner.Keys != {} {
      var top := Highest(c.n, s.owner.Keys);
      HolderMoves(c, s, top);
      t := s.owner[top];
    } else if s.mon.Join? && s.mon.i < c.n && s.pcs[s.mon.i] != Returned {
      t := s.mon.i;
    }
    assert Allowed(c, s, Pick(t, false, 0));
  }

  lemma NothingOwned(c: Config, s: State)
    requires Shape(c, s) && Owned(c, s) && AllDone(c, s)
    ensures s.owner == map[]
  {
    NothingHeldAtBirth(c.n);
    assert forall t :: 0 <= t <= c.n ==> Helds(c, s)[t] == {};
    assert forall l :: l !in s.owner;
  }
}
