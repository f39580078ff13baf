// The dining philosophers as a step relation: one program counter per thread,
// explicit mutex owners, and every lock, unlock, read and write a step of its own
// (philosopher/philo_routine.c, philosopher/philo_death_check.c,
// philosopher/philo_utils.c:57-79, philosopher/philo.c:15-40, philosopher/philo_init.c:32-43).

module DiningModel {

  /** m_eat is -1 when no meal count was given. */
  datatype Config = Config(n: nat, mEat: int, die: int)

  datatype LockId = Fork(i: nat) | Meal(i: nat) | Print | Dead

  /** check_data_died: about to lock dead; about to read; about to unlock, with the answer. */
  datatype Check = Ask | Read | Answer(stop: bool)

  /** print: about to lock print; inside check_data_died; about to printf or not; about to unlock print. */
  datatype Printing = Queue | Look(k: Check) | Write(stop: bool) | Leave

  datatype What = TookFork | Eating | Sleeping | Thinking | Died

  datatype Line = Line(who: nat, what: What)

  /** The places in routine and eating. */
  datatype PC =
    | Unborn
    | Born
    | Test(k: Check)
    | Take1
    | SayTook1(p: Printing)
    | Take2
    | SayTook2(p: Printing)
    | SayEating(p: Printing)
    | MealLock
    | MealWrite
    | MealUnlock
    | EatNap(z: Nap)
    | Drop1
    | Drop2
    | SaySleeping(p: Printing)
    | SleepNap(z: Nap)
    | SayThinking(p: Printing)
    | ThinkNap(z: Nap)
    | Returned

  /** ft_usleep: at the head of its first loop; in the check; in its second loop. */
  datatype Nap = Head | Peek(k: Check) | Tail

  /** The places in main: spawning, ft_monitoring, joining. */
  datatype MPC =
    | Spawn(i: nat)
    | DiedAsk | DiedRead | DiedAnswer(died: bool)
    | EatLock(i: nat) | EatRead(i: nat) | EatUnlock(i: nat, less: bool)
    | AllLock | AllSet | AllUnlock
    | ScanLock(i: nat) | ScanTest(i: nat) | ScanUnlock(i: nat)
    | SayDied(i: nat, p: Printing)
    | DieLock(i: nat) | DieSet(i: nat) | DieUnlock(i: nat) | DieRelease(i: nat)
    | Join(i: nat)
    | Finished

  /** late counts the lines printed after a stop flag was set. */
  datatype State = State(
    owner: map<LockId, nat>,
    pcs: seq<PC>, eaten: seq<nat>, last: seq<int>,
    mon: MPC, died: bool, allAte: bool,
    log: seq<Line>, late: nat, now: int)

  predicate Stop(s: State) {
    s.died || s.allAte
  }

  // The ring of forks, and the order philosopher i (whose id is i + 1) takes its two in.

  function LeftFork(i: nat): nat {
    i
  }

  function RightFork(n: nat, i: nat): nat {
    if i + 1 < n then i + 1 else 0
  }

  function First(n: nat, i: nat): LockId {
    Fork(if (i + 1) % 2 != 0 then LeftFork(i) else RightFork(n, i))
  }

  function Second(n: nat, i: nat): LockId {
    Fork(if (i + 1) % 2 != 0 then RightFork(n, i) else LeftFork(i))
  }

  /** What a step does to a mutex. */
  datatype Act = Lock(l: LockId) | Unlock(l: LockId) | Local

  function CheckAct(k: Check): Act {
    match k
    case Ask => Lock(Dead)
    case Read => Local
    case Answer(_) => Unlock(Dead)
  }

  function PrintAct(p: Printing): Act {
    match p
    case Queue => Lock(Print)
    case Look(k) => CheckAct(k)
    case Write(_) => Local
    case Leave => Unlock(Print)
  }

  function NapAct(z: Nap): Act {
    match z
    case Peek(k) => CheckAct(k)
    case _ => Local
  }

  function PAct(n: nat, i: nat, pc: PC): Act {
    match pc
    case Unborn => Local
    case Born => Local
    case Test(k) => CheckAct(k)
    case Take1 => Lock(First(n, i))
    case SayTook1(p) => PrintAct(p)
    case Take2 => Lock(Second(n, i))
    case SayTook2(p) => PrintAct(p)
    case SayEating(p) => PrintAct(p)
    case MealLock => Lock(Meal(i))
    case MealWrite => Local
    case MealUnlock => Unlock(Meal(i))
    case EatNap(z) => NapAct(z)
    case Drop1 => Unlock(First(n, i))
    case Drop2 => Unlock(Second(n, i))
    case SaySleeping(p) => PrintAct(p)
    case SleepNap(z) => NapAct(z)
    case SayThinking(p) => PrintAct(p)
    case ThinkNap(z) => NapAct(z)
    case Returned => Local
  }

  function MAct(mon: MPC): Act {
    match mon
    case Spawn(_) => Local
    case DiedAsk => Lock(Dead)
    case DiedRead => Local
    case DiedAnswer(_) => Unlock(Dead)
    case EatLock(i) => Lock(Meal(i))
    case EatRead(_) => Local
    case EatUnlock(i, _) => Unlock(Meal(i))
    case AllLock => Lock(Dead)
    case AllSet => Local
    case AllUnlock => Unlock(Dead)
    case ScanLock(i) => Lock(Meal(i))
    case ScanTest(_) => Local
    case ScanUnlock(i) => Unlock(Meal(i))
    case SayDied(_, p) => PrintAct(p)
    case DieLock(_) => Lock(Dead)
    case DieSet(_) => Local
    case DieUnlock(_) => Unlock(Dead)
    case DieRelease(i) => Unlock(Meal(i))
    case Join(_) => Local
    case Finished => Local
  }

  // Where each step leads. stop is what a read of the two flags would see;
  // again is the outcome of the clock comparison at the head of ft_usleep.

  function CheckNext(k: Check, stop: bool): Check
    requires !k.Answer?
  {
    if k.Ask? then Read else Answer(stop)
  }

  /** The next place inside print, or Queue again when print has returned. */
  function PrintNext(p: Printing, stop: bool): Printing
    requires !p.Leave?
  {
    match p
    case Queue => Look(Ask)
    case Look(Answer(r)) => Write(r)
    case Look(k) => Look(CheckNext(k, stop))
    case Write(_) => Leave
  }

  /** The next place of ft_usleep; Over when it returns. */
  datatype NapStep = On(z: Nap) | Over

  function NapNext(z: Nap, stop: bool, again: bool): NapStep {
    match z
    case Head => if again then On(Peek(Ask)) else On(Tail)
    case Peek(Answer(r)) => if r then Over else On(Head)
    case Peek(k) => On(Peek(CheckNext(k, stop)))
    case Tail => Over
  }

  function PNext(pc: PC, stop: bool, again: bool): PC
    requires pc != Unborn && pc != Returned
  {
    match pc
    case Born => Test(Ask)
    case Test(Answer(r)) => if r then Returned else Take1
    case Test(k) => Test(CheckNext(k, stop))
    case Take1 => SayTook1(Queue)
    case SayTook1(p) => if p.Leave? then Take2 else SayTook1(PrintNext(p, stop))
    case Take2 => SayTook2(Queue)
    case SayTook2(p) => if p.Leave? then SayEating(Queue) else SayTook2(PrintNext(p, stop))
    case SayEating(p) => if p.Leave? then MealLock else SayEating(PrintNext(p, stop))
    case MealLock => MealWrite
    case MealWrite => MealUnlock
    case MealUnlock => EatNap(Head)
    case EatNap(z) => (match NapNext(z, stop, again) case On(y) => EatNap(y) case Over => Drop1)
    case Drop1 => Drop2
    case Drop2 => SaySleeping(Queue)
    case SaySleeping(p) => if p.Leave? then SleepNap(Head) else SaySleeping(PrintNext(p, stop))
    case SleepNap(z) => (match NapNext(z, stop, again) case On(y) => SleepNap(y) case Over => SayThinking(Queue))
    case SayThinking(p) => if p.Leave? then ThinkNap(Head) else SayThinking(PrintNext(p, stop))
    case ThinkNap(z) => (match NapNext(z, stop, again) case On(y) => ThinkNap(y) case Over => Test(Ask))
  }

  /** When check_nb_eat returns 0 the scan for deaths begins; when it returns 1 main goes on to join. */
  function MNext(c: Config, s: State): MPC
    requires c.n >= 1 && s.mon != Finished
    requires MonInRange(c, s.mon) && |s.eaten| == |s.last| == c.n
  {
    match s.mon
    case Spawn(i) => if i < c.n then Spawn(i + 1) else DiedAsk
    case DiedAsk => DiedRead
    case DiedRead => DiedAnswer(s.died)
    case DiedAnswer(r) => if r then Join(0) else if c.mEat == -1 then ScanLock(0) else EatLock(c.n - 1)
    case EatLock(i) => EatRead(i)
    case EatRead(i) => EatUnlock(i, s.eaten[i] < c.mEat)
    case EatUnlock(i, less) => if less then ScanLock(0) else if i == 0 then AllLock else EatLock(i - 1)
    case AllLock => AllSet
    case AllSet => AllUnlock
    case AllUnlock => Join(0)
    case ScanLock(i) => ScanTest(i)
    case ScanTest(i) => if s.now - s.last[i] > c.die then SayDied(i, Queue) else ScanUnlock(i)
    case ScanUnlock(i) => if i + 1 < c.n then ScanLock(i + 1) else DiedAsk
    case SayDied(i, p) => if p.Leave? then DieLock(i) else SayDied(i, PrintNext(p, Stop(s)))
    case DieLock(i) => DieSet(i)
    case DieSet(i) => DieUnlock(i)
    case DieUnlock(i) => DieRelease(i)
    case DieRelease(i) => DiedAsk
    case Join(i) => if i < c.n then Join(i + 1) else Finished
  }

  predicate MonInRange(c: Config, mon: MPC) {
    match mon
    case Spawn(i) => i <= c.n
    case EatLock(i) => i < c.n
    case EatRead(i) => i < c.n
    case EatUnlock(i, _) => i < c.n
    case ScanLock(i) => i < c.n
    case ScanTest(i) => i < c.n
    case ScanUnlock(i) => i < c.n
    case SayDied(i, _) => i < c.n
    case DieLock(i) => i < c.n
    case DieSet(i) => i < c.n
    case DieUnlock(i) => i < c.n
    case DieRelease(i) => i < c.n
    case Join(i) => i <= c.n
    case _ => true
  }

  /** Two or more philosophers, and states of the right shape. */
  predicate Shape(c: Config, s: State) {
    && c.n >= 2 && c.mEat != 0
    && |s.pcs| == |s.eaten| == |s.last| == c.n
    && MonInRange(c, s.mon)
  }

  /** Thread t is philosopher t for t below n, and the main thread for t == n. */
  function ActOf(c: Config, s: State, t: nat): Act
    requires Shape(c, s) && t <= c.n
  {
    if t < c.n then PAct(c.n, t, s.pcs[t]) else MAct(s.mon)
  }

  predicate CanMove(c: Config, s: State, t: nat)
    requires Shape(c, s) && t <= c.n
  {
    && (if t < c.n then s.pcs[t] != Unborn && s.pcs[t] != Returned
        else s.mon != Finished && (s.mon.Join? && s.mon.i < c.n ==> s.pcs[s.mon.i] == Returned))
    && (ActOf(c, s, t).Lock? ==> ActOf(c, s, t).l !in s.owner)
  }

  function Owners(owner: map<LockId, nat>, t: nat, act: Act): map<LockId, nat> {
    match act
    case Lock(l) => owner[l := t]
    case Unlock(l) => owner - {l}
    case Local => owner
  }

  /** The line printed by a printf step, if this step is one that prints. */
  function Spoken(p: Printing, i: nat, what: What): seq<Line> {
    if p == Write(false) then [Line(i, what)] else []
  }

  function PLines(i: nat, pc: PC): seq<Line> {
    match pc
    case SayTook1(p) => Spoken(p, i, TookFork)
    case SayTook2(p) => Spoken(p, i, TookFork)
    case SayEating(p) => Spoken(p, i, Eating)
    case SaySleeping(p) => Spoken(p, i, Sleeping)
    case SayThinking(p) => Spoken(p, i, Thinking)
    case _ => []
  }

  function MLines(mon: MPC): seq<Line> {
    if mon.SayDied? then Spoken(mon.p, mon.i, Died) else []
  }

  function Logged(s: State, lines: seq<Line>): State {
    s.(log := s.log + lines, late := s.late + if Stop(s) then |lines| else 0)
  }

  function PMove(c: Config, s: State, t: nat, again: bool): State
    requires Shape(c, s) && t < c.n && CanMove(c, s, t)
  {
    var pc := s.pcs[t];
    Logged(s, PLines(t, pc)).(
      owner := Owners(s.owner, t, PAct(c.n, t, pc)),
      pcs := s.pcs[t := PNext(pc, Stop(s), again)],
      eaten := if pc == MealWrite then s.eaten[t := s.eaten[t] + 1] else s.eaten,
      last := if pc == MealWrite then s.last[t := s.now] else s.last)
  }

  function MMove(c: Config, s: State): State
    requires Shape(c, s) && CanMove(c, s, c.n)
  {
    Logged(s, MLines(s.mon)).(
      owner := Owners(s.owner, c.n, MAct(s.mon)),
      mon := MNext(c, s),
      pcs := if s.mon.Spawn? && s.mon.i < c.n then s.pcs[s.mon.i := Born] else s.pcs,
      died := s.died || s.mon.DieSet?,
      allAte := s.allAte || s.mon.AllSet?)
  }

  function Move(c: Config, s: State, t: nat, again: bool): State
    requires Shape(c, s) && t <= c.n && CanMove(c, s, t)
  {
    if t < c.n then PMove(c, s, t, again) else MMove(c, s)
  }

  /** A step: the clock goes on by any amount, then one thread moves. */
  datatype Pick = Pick(t: nat, again: bool, wait: nat)

  function Waited(s: State, wait: nat): State {
    s.(now := s.now + wait)
  }

  predicate Allowed(c: Config, s: State, k: Pick)
    requires Shape(c, s)
  {
    k.t <= c.n && CanMove(c, s, k.t)
  }

  function Step(c: Config, s: State, k: Pick): State
    requires Shape(c, s) && Allowed(c, s, k)
  {
    Move(c, Waited(s, k.wait), k.t, k.again)
  }

  predicate Initial(c: Config, s: State) {
    && Shape(c, s)
    && s.owner == map[] && s.mon == Spawn(0) && !s.died && !s.allAte && s.log == [] && s.late == 0
    && forall i :: 0 <= i < c.n ==> s.pcs[i] == Unborn && s.eaten[i] == 0 && s.last[i] <= s.now
  }

  predicate AllDone(c: Config, s: State)
    requires Shape(c, s)
  {
    s.mon == Finished && forall i :: 0 <= i < c.n ==> s.pcs[i] == Returned
  }

  /** A philosopher's step, field by field. */
  lemma PFacts(c: Config, s: State, k: Pick)
    requires Shape(c, s) && Allowed(c, s, k) && k.t < c.n
    ensures s.pcs[k.t] != Unborn && s.pcs[k.t] != Returned
    ensures PAct(c.n, k.t, s.pcs[k.t]).Lock? ==> PAct(c.n, k.t, s.pcs[k.t]).l !in s.owner
    ensures var t, pc := Step(c, s, k), s.pcs[k.t];
      && Shape(c, t)
      && t.mon == s.mon && t.died == s.died && t.allAte == s.allAte && t.now == s.now + k.wait
      && t.owner == Owners(s.owner, k.t, PAct(c.n, k.t, pc))
      && t.pcs == s.pcs[k.t := PNext(pc, Stop(s), k.again)]
      && t.eaten == (if pc == MealWrite then s.eaten[k.t := s.eaten[k.t] + 1] else s.eaten)
      && t.last == (if pc == MealWrite then s.last[k.t := s.now + k.wait] else s.last)
      && t.log == s.log + PLines(k.t, pc)
      && t.late == s.late + (if Stop(s) then |PLines(k.t, pc)| else 0)
  {
    hide PNext, PAct, PLines, Owners, MonInRange;
  }

  lemma MNextInRange(c: Config, s: State)
    requires Shape(c, s) && s.mon != Finished
    ensures MonInRange(c, MNext(c, s))
  {
  }

  /** A step of the main thread, field by field. */
  lemma MFacts(c: Config, s: State, k: Pick)
    requires Shape(c, s) && Allowed(c, s, k) && k.t == c.n
    ensures s.mon != Finished && (MAct(s.mon).Lock? ==> MAct(s.mon).l !in s.owner)
    ensures s.mon.Join? && s.mon.i < c.n ==> s.pcs[s.mon.i] == Returned
    ensures var t := Step(c, s, k);
      && Shape(c, t)
      && t.mon == MNext(c, Waited(s, k.wait)) && t.now == s.now + k.wait
      && t.died == (s.died || s.mon.DieSet?) && t.allAte == (s.allAte || s.mon.AllSet?)
      && t.owner == Owners(s.owner, c.n, MAct(s.mon))
      && t.pcs == (if s.mon.Spawn? && s.mon.i < c.n then s.pcs[s.mon.i := Born] else s.pcs)
      && t.eaten == s.eaten && t.last == s.last
      && t.log == s.log + MLines(s.mon)
      && t.late == s.late + (if Stop(s) then |MLines(s.mon)| else 0)
  {
    MNextInRange(c, Waited(s, k.wait));
    hide MNext, MAct, MLines, Owners, MonInRange;
  }

  lemma StepShape(c: Config, s: State, k: Pick)
    requires Shape(c, s) && Allowed(c, s, k)
    ensures Shape(c, Step(c, s, k))
  {
    if k.t < c.n {
      PFacts(c, s, k);
    } else {
      MFacts(c, s, k);
    }
    hide Shape, Step;
  }

  /** Pick i leads from its state to the next one. */
  ghost predicate Follows(c: Config, run: seq<State>, picks: seq<Pick>, i: nat)
    requires i < |picks| && |run| == |picks| + 1
  {
    Shape(c, run[i]) && Allowed(c, run[i], picks[i]) && run[i + 1] == Step(c, run[i], picks[i])
  }

  /** run lists the states passed through, from an initial one on, and picks the steps between them. */
  ghost predicate IsRun(c: Config, run: seq<State>, picks: seq<Pick>) {
    && |run| == |picks| + 1
    && (forall i :: 0 <= i < |run| ==> Shape(c, run[i]))
    && (forall i :: 0 <= i < |picks| ==> Follows(c, run, picks, i))
    && Initial(c, run[0])
  }

  lemma RunShape(c: Config, run: seq<State>, picks: seq<Pick>, k: nat)
    requires IsRun(c, run, picks) && k <= |picks|
    ensures |run| == |picks| + 1 && Shape(c, run[k])
  {
  }

  lemma RunStep(c: Config, run: seq<State>, picks: seq<Pick>, k: nat)
    requires IsRun(c, run, picks) && k < |picks|
    ensures Shape(c, run[k]) && Allowed(c, run[k], picks[k]) && run[k + 1] == Step(c, run[k], picks[k])
  {
    assert Follows(c, run, picks, k);
  }
}
