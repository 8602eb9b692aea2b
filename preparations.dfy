/**
  Setting the table (philo/party_preparations.c): the ring of forks, the
  initial philosopher records and the fail-fast initialisation of every
  mutex. Allocation and mutex-initialisation results are oracle inputs.
 */
module Preparations {
  import opened Defs

  /** Philosopher i takes fork i first and borrows its right neighbour's fork. */
  function OwnFork(i: nat): nat
  {
    i
  }

  function BorrowedFork(i: nat, n: nat): nat
    requires 0 < n
  {
    (i + 1) % n
  }

  lemma ModBelow(x: int, n: int)
    requires 0 <= x < n
    ensures x % n == x
  {
  }

  lemma ModSelf(n: int)
    requires 0 < n
    ensures n % n == 0
  {
  }

  /** Going round the ring: the next fork, wrapping to 0 after the last. */
  lemma BorrowedIsNext(i: nat, n: nat)
    requires i < n
    ensures BorrowedFork(i, n) == if i + 1 < n then i + 1 else 0
  {
    if i + 1 < n { ModBelow(i + 1, n); } else { ModSelf(n); }
  }

  /** With a single philosopher, its own and its borrowed fork are the same fork. */
  lemma LonePhilosopherHasOneFork()
    ensures BorrowedFork(0, 1) == OwnFork(0)
  {
    BorrowedIsNext(0, 1);
  }

  /**
    With two or more philosophers every philosopher gets two distinct forks of
    the ring, and fork k is the own fork of philosopher k and the borrowed
    fork of philosopher (k - 1) mod N, and of nobody else.
   */
  lemma ForksFormARing(n: nat, k: nat)
    requires 2 <= n && k < n
    ensures forall i :: 0 <= i < n ==> BorrowedFork(i, n) < n && OwnFork(i) != BorrowedFork(i, n)
    ensures forall i :: 0 <= i < n ==> (OwnFork(i) == k <==> i == k)
    ensures forall i :: 0 <= i < n ==> (BorrowedFork(i, n) == k <==> i == (k + n - 1) % n)
  {
    forall i | 0 <= i < n
      ensures BorrowedFork(i, n) < n && OwnFork(i) != BorrowedFork(i, n)
      ensures BorrowedFork(i, n) == k <==> i == (k + n - 1) % n
    {
      BorrowedIsNext(i, n);
      if k == 0 {
        ModBelow(n - 1, n);
      } else {
        assert k + n - 1 == (k - 1) + n;
        ModShift(k - 1, n);
      }
    }
  }

  lemma ModShift(x: int, n: int)
    requires 0 <= x < n
    ensures (x + n) % n == x
  {
  }

  /** What prepare_philosopher writes into philosopher i's record. */
  function Prepared(p: Philosopher, i: nat, n: nat): (q: Philosopher)
    requires 0 < n
  {
    p.(forkOwn := OwnFork(i), forkBorrowed := BorrowedFork(i, n), mealCount := 0, seated := true)
  }

  /** The party's philosophers sit around the ring with no meal eaten yet. */
  predicate Seated(party: Party)
    reads party`philosophers, party`numberOfPhilosophers
  {
    party.Allocated() &&
    forall j :: 0 <= j < party.numberOfPhilosophers ==>
      && party.philosophers[j].forkOwn == OwnFork(j)
      && party.philosophers[j].forkBorrowed == BorrowedFork(j, party.numberOfPhilosophers)
      && party.philosophers[j].mealCount == 0
      && party.philosophers[j].seated
  }

  /**
    The j-th mutex initialize_mutexes sets up: every meal_update lock, then
    every fork, then guard, then dying.
   */
  function InitStep(n: nat, j: nat): Mutex
  {
    if j < n then MealUpdate(j) else if j < 2 * n then Fork(j - n) else if j == 2 * n then Guard else Dying
  }

  function InitOrder(n: nat): (order: seq<Mutex>)
    ensures |order| == 2 * n + 2
    ensures forall j :: 0 <= j < n ==> order[j] == MealUpdate(j)
    ensures forall j :: 0 <= j < n ==> order[n + j] == Fork(j)
    ensures order[2 * n] == Guard && order[2 * n + 1] == Dying
  {
    seq(2 * n + 2, j requires 0 <= j => InitStep(n, j))
  }

  /** The mutexes a party of n philosophers owns. */
  predicate MutexOfParty(m: Mutex, n: nat)
  {
    match m
    case Fork(f) => f < n
    case MealUpdate(p) => p < n
    case Guard => true
    case Dying => true
  }

  /** The initialisation order lists every mutex of the party exactly once. */
  lemma InitOrderListsEachMutexOnce(n: nat)
    ensures forall m :: m in InitOrder(n) <==> MutexOfParty(m, n)
    ensures forall a, b :: 0 <= a < b < 2 * n + 2 ==> InitOrder(n)[a] != InitOrder(n)[b]
  {
    var order := InitOrder(n);
    forall m | MutexOfParty(m, n)
      ensures m in order
    {
      match m
      case MealUpdate(p) => assert order[p] == m;
      case Fork(f) => assert order[n + f] == m;
      case Guard => assert order[2 * n] == m;
      case Dying => assert order[2 * n + 1] == m;
    }
  }

  /** The log entries of initialisations i .. k - 1 of the order. */
  function InitOpsBetween(n: nat, i: nat, k: nat): (ops: seq<Op>)
    requires i <= k <= 2 * n + 2
    ensures |ops| == k - i
    decreases k
  {
    if k == i then [] else InitOpsBetween(n, i, k - 1) + [Init(InitStep(n, k - 1))]
  }

  /** The j-th of initialisations i .. k - 1 is step i + j of the order. */
  lemma {:induction false} InitOpsBetweenAt(n: nat, i: nat, k: nat, j: nat)
    requires i <= k <= 2 * n + 2 && j < k - i
    ensures InitOpsBetween(n, i, k)[j] == Init(InitStep(n, i + j))
    decreases k
  {
    if j < k - 1 - i {
      InitOpsBetweenAt(n, i, k - 1, j);
    }
  }

  /** The log entries of the first k initialisations. */
  function InitOps(n: nat, k: nat): (ops: seq<Op>)
    requires k <= 2 * n + 2
  {
    InitOpsBetween(n, 0, k)
  }

  /**
    A run of initialize_mutexes that stops after k calls has initialised
    exactly the first k mutexes of InitOrder, in that order.
   */
  lemma InitOpsFollowOrder(n: nat, k: nat)
    requires k <= 2 * n + 2
    ensures |InitOps(n, k)| == k
    ensures forall j :: 0 <= j < k ==> InitOps(n, k)[j] == Init(InitOrder(n)[j])
  {
    forall j | 0 <= j < k
      ensures InitOps(n, k)[j] == Init(InitOrder(n)[j])
    {
      InitOpsBetweenAt(n, 0, k, j);
      if n <= j < 2 * n {
        assert InitOrder(n)[n + (j - n)] == Fork(j - n);
      }
    }
  }

  /** Consecutive stretches of initialisations join up. */
  lemma {:induction false} InitOpsJoin(n: nat, i: nat, m: nat, k: nat)
    requires i <= m <= k <= 2 * n + 2
    ensures InitOpsBetween(n, i, m) + InitOpsBetween(n, m, k) == InitOpsBetween(n, i, k)
    decreases k
  {
    if k > m {
      InitOpsJoin(n, i, m, k - 1);
    }
  }

  lemma AppendAssociates<T>(a: seq<T>, b: seq<T>, c: seq<T>)
    ensures (a + b) + c == a + (b + c)
  {
  }

  /** The number of calls that succeed before the first failing one. */
  function FirstFailure(oks: seq<bool>): (k: nat)
    ensures k <= |oks|
  {
    if oks == [] || !oks[0] then 0 else 1 + FirstFailure(oks[1..])
  }

  /** The calls before the first failure all succeed, and the one at it fails. */
  lemma {:induction false} FirstFailureFacts(oks: seq<bool>)
    ensures forall j :: 0 <= j < FirstFailure(oks) ==> oks[j]
    ensures FirstFailure(oks) < |oks| ==> !oks[FirstFailure(oks)]
    decreases |oks|
  {
    if oks != [] && oks[0] {
      FirstFailureFacts(oks[1..]);
      forall j | 0 < j < FirstFailure(oks)
        ensures oks[j]
      {
        assert oks[j] == oks[1..][j - 1];
      }
    }
  }

  /** A position before which every call succeeds and at which one fails is the first failure. */
  lemma {:induction false} FirstFailureIs(oks: seq<bool>, k: nat)
    requires k <= |oks|
    requires forall j :: 0 <= j < k ==> oks[j]
    requires k < |oks| ==> !oks[k]
    ensures FirstFailure(oks) == k
  {
    if k > 0 {
      FirstFailureIs(oks[1..], k - 1);
    }
  }

  /**
    prepare_philosopher: writes the fork indices, a zero meal count and the
    party link, then initialises the meal_update mutex (oracle `initOk`).
   */
  method PreparePhilosopher(party: Party, i: nat, initOk: bool) returns (r: ReturnValue)
    requires party.Allocated() && i < party.numberOfPhilosophers
    modifies party`philosophers, party`log
    ensures party.philosophers ==
              old(party.philosophers)[i := Prepared(old(party.philosophers[i]), i, party.numberOfPhilosophers)]
    ensures r == if initOk then Success else MutexFail
    ensures party.log == old(party.log) + if initOk then [Init(MealUpdate(i))] else []
  {
    var p := party.philosophers[i];
    p := p.(forkOwn := i);
    p := p.(forkBorrowed := (i + 1) % party.numberOfPhilosophers);
    p := p.(mealCount := 0);
    p := p.(seated := true);
    party.philosophers := party.philosophers[i := p];
    if !initOk {
      return MutexFail;
    }
    party.log := party.log + [Init(MealUpdate(i))];
    return Success;
  }

  /**
    The first loop of initialize_mutexes: prepare_philosopher for every
    philosopher in ascending order, stopping at the first failing mutex
    initialisation. `k` is the number of philosophers whose mutex was set up.
   */
  method PreparePhilosophers(party: Party, initOk: seq<bool>) returns (k: nat)
    requires party.Allocated() && |initOk| >= party.numberOfPhilosophers
    modifies party`philosophers, party`log
    ensures var n := party.numberOfPhilosophers;
            && party.Allocated()
            && k <= n
            && (forall j :: 0 <= j < k ==> initOk[j])
            && (k < n ==> !initOk[k])
            && party.log == old(party.log) + InitOps(n, k)
            && forall j :: 0 <= j < n ==>
                 party.philosophers[j] == if j <= k then Prepared(old(party.philosophers[j]), j, n)
                                          else old(party.philosophers[j])
  {
    var n := party.numberOfPhilosophers;
    k := 0;
    while k < n
      invariant k <= n && party.Allocated()
      invariant forall j :: 0 <= j < k ==> initOk[j]
      invariant party.log == old(party.log) + InitOps(n, k)
      invariant forall j :: 0 <= j < n ==>
                  party.philosophers[j] == if j < k then Prepared(old(party.philosophers[j]), j, n)
                                           else old(party.philosophers[j])
    {
      var ret := PreparePhilosopher(party, k, initOk[k]);
      if ret != Success {
        return;
      }
      k := k + 1;
    }
  }

  /**
    The second loop of initialize_mutexes: every fork in ascending order,
    stopping at the first failure. `k` is the number of forks set up.
   */
  method InitializeForks(party: Party, initOk: seq<bool>) returns (k: nat)
    requires |initOk| >= 2 * party.numberOfPhilosophers
    modifies party`log
    ensures var n := party.numberOfPhilosophers;
            && k <= n
            && (forall j :: n <= j < n + k ==> initOk[j])
            && (k < n ==> !initOk[n + k])
            && party.log == old(party.log) + InitOpsBetween(n, n, n + k)
  {
    var n := party.numberOfPhilosophers;
    k := 0;
    while k < n
      invariant k <= n
      invariant forall j :: n <= j < n + k ==> initOk[j]
      invariant party.log == old(party.log) + InitOpsBetween(n, n, n + k)
    {
      if !initOk[n + k] {
        return;
      }
      party.log := party.log + [Init(Fork(k))];
      k := k + 1;
    }
  }

  /**
    The last two calls of initialize_mutexes: guard, then dying, stopping at
    the first failure. `k` is the number of them set up.
   */
  method InitializeLocks(party: Party, guardOk: bool, dyingOk: bool) returns (k: nat)
    modifies party`log
    ensures k == if !guardOk then 0 else if !dyingOk then 1 else 2
    ensures var n := party.numberOfPhilosophers;
            party.log == old(party.log) + InitOpsBetween(n, 2 * n, 2 * n + k)
  {
    if !guardOk {
      return 0;
    }
    party.log := party.log + [Init(Guard)];
    if !dyingOk {
      return 1;
    }
    party.log := party.log + [Init(Dying)];
    return 2;
  }

  /**
    initialize_mutexes: the calls of InitOrder in order, stopping at the first
    failure (oracle `initOk`, one result per call). Philosophers up to the
    failing one have their records written.
   */
  method InitializeMutexes(party: Party, initOk: seq<bool>) returns (r: ReturnValue)
    requires party.Allocated() && |initOk| == 2 * party.numberOfPhilosophers + 2
    modifies party`philosophers, party`log
    ensures party.Allocated()
    ensures r == if FirstFailure(initOk) == |initOk| then Success else MutexFail
    ensures party.log == old(party.log) + InitOps(party.numberOfPhilosophers, FirstFailure(initOk))
    ensures forall j :: 0 <= j < party.numberOfPhilosophers ==>
              party.philosophers[j] ==
                if j <= FirstFailure(initOk) then Prepared(old(party.philosophers[j]), j, party.numberOfPhilosophers)
                else old(party.philosophers[j])
  {
    var n := party.numberOfPhilosophers;
    ghost var log0 := party.log;
    var k := PreparePhilosophers(party, initOk);
    if k < n {
      FirstFailureIs(initOk, k);
      return MutexFail;
    }
    var forks := InitializeForks(party, initOk);
    InitOpsJoin(n, 0, n, n + forks);
    AppendAssociates(log0, InitOps(n, n), InitOpsBetween(n, n, n + forks));
    if forks < n {
      FirstFailureIs(initOk, n + forks);
      return MutexFail;
    }
    var locks := InitializeLocks(party, initOk[2 * n], initOk[2 * n + 1]);
    InitOpsJoin(n, 0, 2 * n, 2 * n + locks);
    AppendAssociates(log0, InitOps(n, 2 * n), InitOpsBetween(n, 2 * n, 2 * n + locks));
    FirstFailureIs(initOk, 2 * n + locks);
    if locks < 2 {
      return MutexFail;
    }
    return Success;
  }

  /**
    prepare_party: someone_dead is cleared before anything is allocated; a
    failed allocation (oracles `mallocPhilosophers`, `mallocForks`) returns
    MallocFail, a failed mutex initialisation MutexFail. Nothing acquired
    before a failure is released here.
   */
  method PrepareParty(party: Party, mallocPhilosophers: bool, mallocForks: bool, initOk: seq<bool>)
    returns (r: ReturnValue)
    requires |initOk| == 2 * party.numberOfPhilosophers + 2
    modifies party`someoneDead, party`philosophers, party`log
    ensures party.someoneDead == 0
    ensures !mallocPhilosophers ==>
              r == MallocFail && party.log == old(party.log) && party.philosophers == old(party.philosophers)
    ensures mallocPhilosophers ==> party.Allocated()
    ensures mallocPhilosophers && !mallocForks ==>
              r == MallocFail && party.log == old(party.log) + [Alloc(PhilosophersBlock)]
    ensures mallocPhilosophers && mallocForks ==>
              var n := party.numberOfPhilosophers;
              var k := FirstFailure(initOk);
              && r == (if k == 2 * n + 2 then Success else MutexFail)
              && party.log == old(party.log) + [Alloc(PhilosophersBlock), Alloc(ForksBlock)] + InitOps(n, k)
              && forall j :: 0 <= j < n ==>
                   party.philosophers[j] == if j <= k then Prepared(Unprepared, j, n) else Unprepared
    ensures r == Success ==> Seated(party)
    ensures r == Success || r == MallocFail || r == MutexFail
  {
    party.someoneDead := 0;
    if !mallocPhilosophers {
      return MallocFail;
    }
    party.philosophers := seq(party.numberOfPhilosophers, _ => Unprepared);
    party.log := party.log + [Alloc(PhilosophersBlock)];
    if !mallocForks {
      return MallocFail;
    }
    party.log := party.log + [Alloc(ForksBlock)];
    r := InitializeMutexes(party, initOk);
    if r == MutexFail {
      return MutexFail;
    }
    return Success;
  }
}
