// The ring of forks as init_philo wires it, and the pair of mutexes locking_fork takes
// (philosopher/philo_init.c:15-46, philosopher/philo_routine.c:15-30).

module DiningInit {
  import opened DiningModel

  class Mutex {
    constructor () {}
  }

  class Philo {
    const lFork: Mutex
    const mPhilo: Mutex
    var rFork: Mutex?
    var id: nat
    var lastMeal: int
    var asEaten: nat

    constructor ()
      ensures fresh(lFork) && fresh(mPhilo) && lFork != mPhilo && rFork == null
    {
      lFork := new Mutex();
      mPhilo := new Mutex();
      rFork := null;
    }

    /** The fork locking_fork locks first, and the one it locks second. */
    function Order(): (forks: (Mutex?, Mutex?))
      reads this
    {
      if id % 2 != 0 then (lFork, rFork) else (rFork, lFork)
    }
  }

  /** No mutex belongs to two places. */
  ghost predicate Apart(philos: seq<Philo>) {
    && (forall i, j :: 0 <= i < j < |philos| ==> philos[i] != philos[j])
    && (forall i, j :: 0 <= i < j < |philos| ==>
          philos[i].lFork != philos[j].lFork && philos[i].mPhilo != philos[j].mPhilo)
    && (forall i, j :: 0 <= i < |philos| && 0 <= j < |philos| ==> philos[i].lFork != philos[j].mPhilo)
  }

  ghost predicate Wired(philos: seq<Philo>, i: nat)
    requires i < |philos|
    reads philos
  {
    && philos[i].id == i + 1 && philos[i].asEaten == 0
    && philos[i].rFork == philos[RightFork(|philos|, i)].lFork
  }

  /** The mutex a fork number of the model stands for. */
  function MutexOf(philos: seq<Philo>, l: LockId): (m: Mutex)
    requires match l case Fork(i) => i < |philos| case Meal(i) => i < |philos| case _ => false
  {
    match l
    case Fork(i) => philos[i].lFork
    case Meal(i) => philos[i].mPhilo
  }

  method InitPhilo(n: nat, now: int) returns (philos: seq<Philo>)
    requires n >= 1
    ensures |philos| == n && fresh(philos) && Apart(philos)
    ensures forall i :: 0 <= i < n ==> Wired(philos, i) && philos[i].lastMeal == now
  {
    philos := [];
    while |philos| < n
      invariant |philos| <= n && fresh(philos) && Apart(philos)
      invariant forall p :: p in philos ==> fresh(p.lFork) && fresh(p.mPhilo)
    {
      var philo := new Philo();
      philos := philos + [philo];
    }
    var i := 0;
    while i < n
      invariant i <= n
      invariant forall k :: 0 <= k < i ==> Wired(philos, k) && philos[k].lastMeal == now
    {
      philos[i].id := i + 1;
      philos[i].lastMeal := now;
      philos[i].asEaten := 0;
      philos[i].rFork := if i != n - 1 then philos[i + 1].lFork else philos[0].lFork;
      i := i + 1;
    }
  }

  /** First and Second name exactly the two mutexes the thread locks, in that order. */
  lemma OrderIsModelled(philos: seq<Philo>, i: nat)
    requires i < |philos| && Wired(philos, i)
    ensures philos[i].Order() == (MutexOf(philos, First(|philos|, i)), MutexOf(philos, Second(|philos|, i)))
  {
  }

  /** Different lock names are different mutexes, so the owner map of the model is well named. */
  lemma NamesAreMutexes(philos: seq<Philo>, l: LockId, m: LockId)
    requires Apart(philos)
    requires (l.Fork? || l.Meal?) && l.i < |philos| && (m.Fork? || m.Meal?) && m.i < |philos|
    ensures MutexOf(philos, l) == MutexOf(philos, m) <==> l == m
  {
  }
}
