/**
  Shutdown (philo/cleanup.c): joining the threads and releasing the mutexes
  and arrays. Join outcomes are oracles; the party's log records each join
  attempt with its outcome, each destroy and each free.
 */
module Cleanup {
  import opened Defs
  import opened Preparations

  /** The mutex clean_up's loop destroys at its j-th step: fork j / 2, then meal_update j / 2. */
  function LoopStep(j: nat): Mutex
  {
    if j % 2 == 0 then Fork(j / 2) else MealUpdate(j / 2)
  }

  /** The destroys of clean_up's loop for philosophers 0 .. k - 1. */
  function ForkAndMealOps(k: nat): (ops: seq<Op>)
    ensures |ops| == 2 * k
    ensures forall j :: 0 <= j < 2 * k ==> ops[j] == Destroy(LoopStep(j))
  {
    if k == 0 then [] else ForkAndMealOps(k - 1) + [Destroy(Fork(k - 1)), Destroy(MealUpdate(k - 1))]
  }

  /** Everything clean_up does for a party of n philosophers, in order. */
  function CleanupOps(n: nat): seq<Op>
  {
    ForkAndMealOps(n) + [Destroy(Guard), Destroy(Dying), Free(PhilosophersBlock), Free(ForksBlock)]
  }

  /**
    clean_up: destroys fork i and meal_update i for every philosopher in
    ascending order, then guard and dying, then frees the philosophers array
    and the forks array. The destroy of reporting_enough_meals is not part of
    this model (that field does not exist in t_party).
   */
  method CleanUp(party: Party)
    modifies party`log
    ensures party.log == old(party.log) + CleanupOps(party.numberOfPhilosophers)
  {
    var i := 0;
    while i < party.numberOfPhilosophers
      invariant i <= party.numberOfPhilosophers
      invariant party.log == old(party.log) + ForkAndMealOps(i)
    {
      party.log := party.log + [Destroy(Fork(i))];
      party.log := party.log + [Destroy(MealUpdate(i))];
      i := i + 1;
    }
    party.log := party.log + [Destroy(Guard)];
    party.log := party.log + [Destroy(Dying)];
    party.log := party.log + [Free(PhilosophersBlock)];
    party.log := party.log + [Free(ForksBlock)];
  }

  /**
    clean_up undoes initialize_mutexes exactly: it destroys the mutexes
    prepare_party initialises and no other, frees both arrays, and does no
    operation twice.
   */
  lemma CleanupUndoesPreparation(n: nat)
    ensures forall m :: Destroy(m) in CleanupOps(n) <==> m in InitOrder(n)
    ensures Free(PhilosophersBlock) in CleanupOps(n) && Free(ForksBlock) in CleanupOps(n)
  {
    var ops := CleanupOps(n);
    InitOrderListsEachMutexOnce(n);
    forall m | MutexOfParty(m, n)
      ensures Destroy(m) in ops
    {
      match m
      case Fork(f) => assert ops[2 * f] == Destroy(m);
      case MealUpdate(p) => assert ops[2 * p + 1] == Destroy(m);
      case Guard => assert ops[2 * n] == Destroy(m);
      case Dying => assert ops[2 * n + 1] == Destroy(m);
    }
    forall m | Destroy(m) in ops
      ensures MutexOfParty(m, n)
    {
      var j :| 0 <= j < |ops| && ops[j] == Destroy(m);
    }
    assert ops[2 * n + 2] == Free(PhilosophersBlock) && ops[2 * n + 3] == Free(ForksBlock);
  }

  /** Distinct steps of the loop destroy distinct mutexes. */
  lemma LoopStepInjective(a: nat, b: nat)
    requires a != b
    ensures LoopStep(a) != LoopStep(b)
  {
    if a % 2 == b % 2 {
      assert a == 2 * (a / 2) + a % 2 && b == 2 * (b / 2) + b % 2;
    }
  }

  /** clean_up performs no operation twice. */
  lemma CleanupOpsDistinct(n: nat)
    ensures forall a, b :: 0 <= a < b < |CleanupOps(n)| ==> CleanupOps(n)[a] != CleanupOps(n)[b]
  {
    var ops := CleanupOps(n);
    forall a, b | 0 <= a < b < |ops|
      ensures ops[a] != ops[b]
    {
      if b < 2 * n {
        LoopStepInjective(a, b);
      }
    }
  }

  /** The join attempts on philosophers 0 .. k - 1 with the oracle's outcomes. */
  function JoinLog(oks: seq<bool>, k: nat): (ops: seq<Op>)
    requires k <= |oks|
    ensures |ops| == k
    ensures forall j :: 0 <= j < k ==> ops[j] == Join(PhilosopherThread(j), oks[j])
  {
    if k == 0 then [] else JoinLog(oks, k - 1) + [Join(PhilosopherThread(k - 1), oks[k - 1])]
  }

  /** How many joins join_philosopher_threads attempts: up to and including the first failure. */
  function JoinAttempts(oks: seq<bool>): (k: nat)
    ensures k <= |oks|
  {
    var f := FirstFailure(oks);
    if f < |oks| then f + 1 else f
  }

  /**
    Philosopher j's thread is joined exactly when j is not past the first
    failed join: later threads are never joined.
   */
  lemma JoinedUpToFirstFailure(oks: seq<bool>, j: nat)
    requires j < |oks|
    ensures (exists joined :: Join(PhilosopherThread(j), joined) in JoinLog(oks, JoinAttempts(oks)))
            <==> j <= FirstFailure(oks)
  {
    var log := JoinLog(oks, JoinAttempts(oks));
    if j <= FirstFailure(oks) {
      assert log[j] == Join(PhilosopherThread(j), oks[j]);
    } else {
      forall x | 0 <= x < |log|
        ensures log[x].thread != PhilosopherThread(j)
      {
        assert log[x] == Join(PhilosopherThread(x), oks[x]);
      }
    }
  }

  /**
    join_philosopher_threads: joins in ascending order (outcomes `joinOk`)
    and stops at the first failure with ERROR; SUCCESS when all joined.
   */
  method JoinPhilosopherThreads(party: Party, joinOk: seq<bool>) returns (r: ReturnValue)
    requires |joinOk| == party.numberOfPhilosophers
    modifies party`log
    ensures r == if FirstFailure(joinOk) == |joinOk| then Success else Error
    ensures party.log == old(party.log) + JoinLog(joinOk, JoinAttempts(joinOk))
  {
    var i := 0;
    while i < party.numberOfPhilosophers
      invariant i <= party.numberOfPhilosophers
      invariant forall j :: 0 <= j < i ==> joinOk[j]
      invariant party.log == old(party.log) + JoinLog(joinOk, i)
    {
      party.log := party.log + [Join(PhilosopherThread(i), joinOk[i])];
      if !joinOk[i] {
        FirstFailureIs(joinOk, i);
        return Error;
      }
      i := i + 1;
    }
    FirstFailureIs(joinOk, i);
    return Success;
  }

  /** join_monitoring_thread: JOIN_FAIL when the join (outcome `ok`) fails. */
  method JoinMonitoringThread(party: Party, ok: bool) returns (r: ReturnValue)
    modifies party`log
    ensures r == if ok then Success else JoinFail
    ensures party.log == old(party.log) + [Join(MonitoringThread, ok)]
  {
    party.log := party.log + [Join(MonitoringThread, ok)];
    if !ok {
      return JoinFail;
    }
    return Success;
  }

  /**
    join_threads_to_exit_party: the monitor is joined first; the philosophers
    are joined whether or not that succeeded. A failed philosopher join
    yields ERROR, which the JOIN_FAIL test does not catch, so the result
    depends on the monitor join alone.
   */
  method JoinThreadsToExitParty(party: Party, monitorOk: bool, joinOk: seq<bool>) returns (r: ReturnValue)
    requires |joinOk| == party.numberOfPhilosophers
    modifies party`log
    ensures r == if monitorOk then Success else JoinFail
    ensures party.log == old(party.log) + [Join(MonitoringThread, monitorOk)] + JoinLog(joinOk, JoinAttempts(joinOk))
  {
    var monitor := JoinMonitoringThread(party, monitorOk);
    if monitor == JoinFail {
      var _ := JoinPhilosopherThreads(party, joinOk);
      return JoinFail;
    }
    var philosophers := JoinPhilosopherThreads(party, joinOk);
    if philosophers == JoinFail {
      return JoinFail;
    }
    return Success;
  }
}
