/**
  The program's top level (philo/philosophers.c): recording the start time,
  starting the threads behind the guard, running the party, and main's
  sequencing of parsing, preparing, running and cleaning up. Thread creation
  outcomes, clock readings, allocation, initialisation and join outcomes are
  oracles. What the started threads do is modelled by Routine and Monitoring;
  here only the order of the main thread's own operations is kept.
 */
module Philosophers {
  import opened Defs
  import opened Input
  import opened Preparations
  import opened Cleanup

  /**
    initialize_party_start_time: one clock reading (`now`) becomes the party's
    start time and every philosopher's last meal time.
   */
  method InitializePartyStartTime(party: Party, now: U64)
    requires party.Allocated()
    modifies party`partyStartTime, party`philosophers, party`log
    ensures party.partyStartTime == now
    ensures party.log == old(party.log) + [StartClock(now)]
    ensures party.Allocated()
    ensures forall j :: 0 <= j < party.numberOfPhilosophers ==>
              party.philosophers[j] == old(party.philosophers[j]).(timeLastAte := now)
  {
    party.partyStartTime := now;
    party.log := party.log + [StartClock(now)];
    var i := 0;
    while i < party.numberOfPhilosophers
      invariant i <= party.numberOfPhilosophers
      invariant party.Allocated() && party.partyStartTime == now
      invariant party.log == old(party.log) + [StartClock(now)]
      invariant forall j :: 0 <= j < party.numberOfPhilosophers ==>
                  party.philosophers[j] == if j < i then old(party.philosophers[j]).(timeLastAte := now)
                                           else old(party.philosophers[j])
    {
      party.philosophers := party.philosophers[i := party.philosophers[i].(timeLastAte := party.partyStartTime)];
      i := i + 1;
    }
  }

  /** The creations of philosopher threads 0 .. k - 1. */
  function CreateLog(k: nat): (ops: seq<Op>)
    ensures |ops| == k
    ensures forall j :: 0 <= j < k ==> ops[j] == Create(PhilosopherThread(j))
  {
    if k == 0 then [] else CreateLog(k - 1) + [Create(PhilosopherThread(k - 1))]
  }

  /**
    What start_party does with creation outcomes `create` (one per
    philosopher), monitor creation outcome `monitorOk` and clock reading `now`.
   */
  function StartOps(create: seq<bool>, monitorOk: bool, now: U64): seq<Op>
  {
    var k := FirstFailure(create);
    CreateLog(k) +
      if k < |create| then [Unlock(Guard)]
      else [StartClock(now), if monitorOk then Create(MonitoringThread) else Unlock(Guard)]
  }

  /** What start_party returns. */
  function StartResult(create: seq<bool>, monitorOk: bool): ReturnValue
  {
    if FirstFailure(create) == |create| && monitorOk then Success else ThreadFail
  }

  /**
    Philosopher j's record after start_party: start_philosopher sets its index
    before trying to create its thread; the last meal time is set only when
    every philosopher thread was created.
   */
  function Started(p: Philosopher, j: nat, create: seq<bool>, now: U64): Philosopher
  {
    var k := FirstFailure(create);
    var q := if j <= k then p.(index := j) else p;
    if k == |create| then q.(timeLastAte := now) else q
  }

  /**
    start_philosopher: sets philosopher i's index, then creates its thread
    (outcome `ok`); THREAD_FAIL when the creation fails.
   */
  method StartPhilosopher(party: Party, i: nat, ok: bool) returns (r: ReturnValue)
    requires i < |party.philosophers|
    modifies party`philosophers, party`log
    ensures r == if ok then Success else ThreadFail
    ensures party.philosophers == old(party.philosophers)[i := old(party.philosophers[i]).(index := i)]
    ensures party.log == old(party.log) + if ok then [Create(PhilosopherThread(i))] else []
  {
    party.philosophers := party.philosophers[i := party.philosophers[i].(index := i)];
    if !ok {
      return ThreadFail;
    }
    party.log := party.log + [Create(PhilosopherThread(i))];
    return Success;
  }

  /** start_monitoring: creates the monitoring thread (outcome `ok`); THREAD_FAIL when that fails. */
  method StartMonitoring(party: Party, ok: bool) returns (r: ReturnValue)
    modifies party`log
    ensures r == if ok then Success else ThreadFail
    ensures party.log == old(party.log) + if ok then [Create(MonitoringThread)] else []
  {
    if !ok {
      return ThreadFail;
    }
    party.log := party.log + [Create(MonitoringThread)];
    return Success;
  }

  /**
    The loop of start_party: starts philosophers 0 .. N - 1 in order, each
    after its index is set; the first failed creation unlocks the guard and
    ends the loop with THREAD_FAIL.
   */
  method StartPhilosophers(party: Party, create: seq<bool>) returns (r: ReturnValue)
    requires party.Allocated() && |create| == party.numberOfPhilosophers
    modifies party`philosophers, party`log
    ensures r == if FirstFailure(create) == |create| then Success else ThreadFail
    ensures party.log == old(party.log) + CreateLog(FirstFailure(create))
                         + if FirstFailure(create) < |create| then [Unlock(Guard)] else []
    ensures party.Allocated()
    ensures forall j :: 0 <= j < party.numberOfPhilosophers ==>
              party.philosophers[j] == if j <= FirstFailure(create) then old(party.philosophers[j]).(index := j)
                                       else old(party.philosophers[j])
  {
    var i := 0;
    while i < party.numberOfPhilosophers
      invariant i <= party.numberOfPhilosophers
      invariant forall j :: 0 <= j < i ==> create[j]
      invariant party.log == old(party.log) + CreateLog(i)
      invariant party.Allocated()
      invariant forall j :: 0 <= j < party.numberOfPhilosophers ==>
                  party.philosophers[j] == if j < i then old(party.philosophers[j]).(index := j)
                                           else old(party.philosophers[j])
    {
      var started := StartPhilosopher(party, i, create[i]);
      if started == ThreadFail {
        FirstFailureIs(create, i);
        party.log := party.log + [Unlock(Guard)];
        return ThreadFail;
      }
      i := i + 1;
    }
    FirstFailureIs(create, i);
    return Success;
  }

  /**
    start_party: starts every philosopher; after all were created the start
    time is recorded, and only then is the monitor started, whose failure
    also unlocks the guard.
   */
  method StartParty(party: Party, create: seq<bool>, monitorOk: bool, now: U64) returns (r: ReturnValue)
    requires party.Allocated() && |create| == party.numberOfPhilosophers
    modifies party`philosophers, party`partyStartTime, party`log
    ensures r == StartResult(create, monitorOk)
    ensures party.log == old(party.log) + StartOps(create, monitorOk, now)
    ensures party.Allocated()
    ensures forall j :: 0 <= j < party.numberOfPhilosophers ==>
              party.philosophers[j] == Started(old(party.philosophers[j]), j, create, now)
    ensures party.partyStartTime == if FirstFailure(create) == |create| then now else old(party.partyStartTime)
  {
    var philosophers := StartPhilosophers(party, create);
    if philosophers == ThreadFail {
      return ThreadFail;
    }
    InitializePartyStartTime(party, now);
    var monitor := StartMonitoring(party, monitorOk);
    if monitor == ThreadFail {
      party.log := party.log + [Unlock(Guard)];
      return ThreadFail;
    }
    return Success;
  }

  /**
    The start time is recorded exactly when every philosopher thread was
    created, and the monitor is created only when the start time was.
   */
  lemma StartOrdering(create: seq<bool>, monitorOk: bool, now: U64)
    ensures (exists t :: StartClock(t) in StartOps(create, monitorOk, now))
            <==> forall j :: 0 <= j < |create| ==> create[j]
    ensures Create(MonitoringThread) in StartOps(create, monitorOk, now)
            <==> StartResult(create, monitorOk) == Success
  {
    var k := FirstFailure(create);
    var ops := StartOps(create, monitorOk, now);
    FirstFailureFacts(create);
    if k < |create| {
      forall x | 0 <= x < |ops|
        ensures !ops[x].StartClock? && ops[x] != Create(MonitoringThread)
      {
        if x < k {
          assert ops[x] == CreateLog(k)[x];
        }
      }
    } else {
      assert ops[k] == StartClock(now);
      if !monitorOk {
        forall x | 0 <= x < |ops|
          ensures ops[x] != Create(MonitoringThread)
        {
          if x < k {
            assert ops[x] == CreateLog(k)[x];
          }
        }
      } else {
        assert ops[k + 1] == Create(MonitoringThread);
      }
    }
  }

  /** What run_dining_party does: guard locked, start_party, guard unlocked, joins. */
  function RunOps(create: seq<bool>, monitorOk: bool, now: U64, monitorJoinOk: bool, joinOk: seq<bool>): seq<Op>
  {
    [Lock(Guard)] + StartOps(create, monitorOk, now) + [Unlock(Guard)]
      + [Join(MonitoringThread, monitorJoinOk)] + JoinLog(joinOk, JoinAttempts(joinOk))
  }

  /** Appending run_dining_party's steps one by one appends RunOps. */
  lemma AppendRunOps(log: seq<Op>, create: seq<bool>, monitorOk: bool, now: U64, monitorJoinOk: bool,
                     joinOk: seq<bool>)
    ensures log + [Lock(Guard)] + StartOps(create, monitorOk, now) + [Unlock(Guard)]
              + [Join(MonitoringThread, monitorJoinOk)] + JoinLog(joinOk, JoinAttempts(joinOk))
            == log + RunOps(create, monitorOk, now, monitorJoinOk, joinOk)
  {
    var start := StartOps(create, monitorOk, now);
    var joins := JoinLog(joinOk, JoinAttempts(joinOk));
    var a := [Lock(Guard)] + start;
    var b := a + [Unlock(Guard)];
    var c := b + [Join(MonitoringThread, monitorJoinOk)];
    AppendAssociates(log, [Lock(Guard)], start);
    AppendAssociates(log, a, [Unlock(Guard)]);
    AppendAssociates(log, b, [Join(MonitoringThread, monitorJoinOk)]);
    AppendAssociates(log, c, joins);
  }

  /**
    run_dining_party: locks the guard so that no philosopher passes its gate
    before all are started, runs start_party and ignores its result, unlocks
    the guard and joins the threads. The result is the join result alone.
   */
  method RunDiningParty(party: Party, create: seq<bool>, monitorOk: bool, now: U64, monitorJoinOk: bool,
                        joinOk: seq<bool>)
    returns (r: ReturnValue)
    requires party.Allocated()
    requires |create| == party.numberOfPhilosophers && |joinOk| == party.numberOfPhilosophers
    modifies party`philosophers, party`partyStartTime, party`log
    ensures r == if monitorJoinOk then Success else JoinFail
    ensures party.log == old(party.log) + RunOps(create, monitorOk, now, monitorJoinOk, joinOk)
    ensures party.partyStartTime == if FirstFailure(create) == |create| then now else old(party.partyStartTime)
    ensures party.Allocated()
    ensures forall j :: 0 <= j < party.numberOfPhilosophers ==>
              party.philosophers[j] == Started(old(party.philosophers[j]), j, create, now)
  {
    AppendRunOps(party.log, create, monitorOk, now, monitorJoinOk, joinOk);
    party.log := party.log + [Lock(Guard)];
    var _ := StartParty(party, create, monitorOk, now);
    party.log := party.log + [Unlock(Guard)];
    var joined := JoinThreadsToExitParty(party, monitorJoinOk, joinOk);
    if joined == JoinFail {
      return JoinFail;
    }
    return Success;
  }

  /** start_party unlocks the guard once when it fails and not at all when it succeeds; it never locks. */
  lemma StartOpsGuardCount(create: seq<bool>, monitorOk: bool, now: U64)
    ensures multiset(StartOps(create, monitorOk, now))[Lock(Guard)] == 0
    ensures multiset(StartOps(create, monitorOk, now))[Unlock(Guard)]
            == if StartResult(create, monitorOk) == Success then 0 else 1
  {
    var k := FirstFailure(create);
    assert Lock(Guard) !in CreateLog(k) && Unlock(Guard) !in CreateLog(k);
    if k < |create| {
      assert StartOps(create, monitorOk, now) == CreateLog(k) + [Unlock(Guard)];
    } else if monitorOk {
      assert StartOps(create, monitorOk, now) == CreateLog(k) + [StartClock(now), Create(MonitoringThread)];
    } else {
      assert StartOps(create, monitorOk, now) == CreateLog(k) + [StartClock(now), Unlock(Guard)];
    }
  }

  /** Locking the guard around `start` adds one lock and one unlock; the joins add neither. */
  lemma GuardBracketCount(start: seq<Op>, join: Op, joins: seq<Op>, op: Op)
    requires op == Lock(Guard) || op == Unlock(Guard)
    requires op != join && op !in joins
    ensures multiset([Lock(Guard)] + start + [Unlock(Guard)] + [join] + joins)[op] == multiset(start)[op] + 1
  {
  }

  /** The joins lock and unlock nothing. */
  lemma JoinLogOnlyJoins(oks: seq<bool>, k: nat, op: Op)
    requires k <= |oks| && !op.Join?
    ensures op !in JoinLog(oks, k)
  {
    var joins := JoinLog(oks, k);
    forall x | 0 <= x < |joins| ensures joins[x].Join? { }
  }

  lemma RunOpsGuardOp(create: seq<bool>, monitorOk: bool, now: U64, monitorJoinOk: bool, joinOk: seq<bool>, op: Op)
    requires op == Lock(Guard) || op == Unlock(Guard)
    ensures multiset(RunOps(create, monitorOk, now, monitorJoinOk, joinOk))[op]
            == multiset(StartOps(create, monitorOk, now))[op] + 1
  {
    JoinLogOnlyJoins(joinOk, JoinAttempts(joinOk), op);
    GuardBracketCount(StartOps(create, monitorOk, now), Join(MonitoringThread, monitorJoinOk),
                      JoinLog(joinOk, JoinAttempts(joinOk)), op);
  }

  /**
    The guard is locked once by run_dining_party; when start_party fails it is
    unlocked twice, once in start_party and again in run_dining_party.
   */
  lemma GuardUnlockedTwiceOnStartFailure(create: seq<bool>, monitorOk: bool, now: U64, monitorJoinOk: bool,
                                         joinOk: seq<bool>)
    ensures multiset(RunOps(create, monitorOk, now, monitorJoinOk, joinOk))[Lock(Guard)] == 1
    ensures multiset(RunOps(create, monitorOk, now, monitorJoinOk, joinOk))[Unlock(Guard)]
            == if StartResult(create, monitorOk) == Success then 1 else 2
  {
    StartOpsGuardCount(create, monitorOk, now);
    RunOpsGuardOp(create, monitorOk, now, monitorJoinOk, joinOk, Lock(Guard));
    RunOpsGuardOp(create, monitorOk, now, monitorJoinOk, joinOk, Unlock(Guard));
  }

  /** The oracle's outcomes for steps 0 .. n - 1. */
  function Outcomes(f: nat -> bool, n: nat): (oks: seq<bool>)
    ensures |oks| == n
    ensures forall j :: 0 <= j < n ==> oks[j] == f(j)
  {
    seq(n, j requires 0 <= j => f(j))
  }

  /**
    The outcomes of everything the program asks of its environment: both
    allocations, the mutex initialisations in order, the thread creations,
    the start-time clock reading and the joins.
   */
  datatype Environment = Environment(
    mallocPhilosophers: bool,
    mallocForks: bool,
    initOk: nat -> bool,
    create: nat -> bool,
    monitorOk: bool,
    now: U64,
    monitorJoinOk: bool,
    joinOk: nat -> bool)

  /** prepare_party succeeds in this environment for n philosophers. */
  predicate PrepareSucceeds(env: Environment, n: nat)
  {
    env.mallocPhilosophers && env.mallocForks && FirstFailure(Outcomes(env.initOk, 2 * n + 2)) == 2 * n + 2
  }

  /** The log of a successful prepare_party. */
  function PreparedOps(n: nat): seq<Op>
  {
    [Alloc(PhilosophersBlock), Alloc(ForksBlock)] + InitOps(n, 2 * n + 2)
  }

  function RunOpsIn(env: Environment, n: nat): seq<Op>
  {
    RunOps(Outcomes(env.create, n), env.monitorOk, env.now, env.monitorJoinOk, Outcomes(env.joinOk, n))
  }

  /** No mutex is destroyed and no array is freed. */
  predicate NoTeardown(ops: seq<Op>)
  {
    forall k :: 0 <= k < |ops| ==> !ops[k].Destroy? && !ops[k].Free?
  }

  lemma NoTeardownAppend(a: seq<Op>, b: seq<Op>)
    requires NoTeardown(a) && NoTeardown(b)
    ensures NoTeardown(a + b)
  {
    forall k | 0 <= k < |a + b|
      ensures !(a + b)[k].Destroy? && !(a + b)[k].Free?
    {
      if k >= |a| {
        assert (a + b)[k] == b[k - |a|];
      }
    }
  }

  /** initialize_mutexes only initialises. */
  lemma {:induction false} InitOpsOnlyInit(n: nat, i: nat, k: nat)
    requires i <= k <= 2 * n + 2
    ensures NoTeardown(InitOpsBetween(n, i, k))
    decreases k
  {
    if k > i {
      InitOpsOnlyInit(n, i, k - 1);
      NoTeardownAppend(InitOpsBetween(n, i, k - 1), [Init(InitStep(n, k - 1))]);
    }
  }

  /** A prepare_party that stops after the first k initialisations tears nothing down. */
  lemma PrepareOpsNoTeardown(n: nat, k: nat)
    requires k <= 2 * n + 2
    ensures NoTeardown([Alloc(PhilosophersBlock), Alloc(ForksBlock)] + InitOps(n, k))
  {
    InitOpsOnlyInit(n, 0, k);
    NoTeardownAppend([Alloc(PhilosophersBlock), Alloc(ForksBlock)], InitOps(n, k));
  }

  /** run_dining_party tears nothing down. */
  lemma RunOpsNoTeardown(create: seq<bool>, monitorOk: bool, now: U64, monitorJoinOk: bool, joinOk: seq<bool>)
    ensures NoTeardown(RunOps(create, monitorOk, now, monitorJoinOk, joinOk))
  {
    var k := FirstFailure(create);
    var tail: seq<Op> :=
      if k < |create| then [Unlock(Guard)]
      else [StartClock(now), if monitorOk then Create(MonitoringThread) else Unlock(Guard)];
    NoTeardownAppend(CreateLog(k), tail);
    var start := StartOps(create, monitorOk, now);
    var joins := JoinLog(joinOk, JoinAttempts(joinOk));
    NoTeardownAppend([Lock(Guard)], start);
    NoTeardownAppend([Lock(Guard)] + start, [Unlock(Guard)]);
    NoTeardownAppend([Lock(Guard)] + start + [Unlock(Guard)], [Join(MonitoringThread, monitorJoinOk)]);
    NoTeardownAppend([Lock(Guard)] + start + [Unlock(Guard)] + [Join(MonitoringThread, monitorJoinOk)], joins);
  }

  /**
    Until clean_up, nothing is torn down: preparing and running the party
    neither destroys a mutex nor frees an array, so every teardown in a
    successful run's log is clean_up's own, done once.
   */
  lemma TeardownOnlyInCleanup(env: Environment, n: nat)
    ensures NoTeardown(PreparedOps(n) + RunOpsIn(env, n))
  {
    PrepareOpsNoTeardown(n, 2 * n + 2);
    RunOpsNoTeardown(Outcomes(env.create, n), env.monitorOk, env.now, env.monitorJoinOk, Outcomes(env.joinOk, n));
    NoTeardownAppend(PreparedOps(n), RunOpsIn(env, n));
  }

  /**
    main after a successful parse: prepare_party, and when that succeeded
    run_dining_party followed by one clean_up whatever the run returned.
   */
  method PrepareRunAndCleanUp(party: Party, env: Environment) returns (r: ReturnValue)
    requires party.log == []
    modifies party`someoneDead, party`philosophers, party`partyStartTime, party`log
    ensures var n := party.numberOfPhilosophers;
            !PrepareSucceeds(env, n) ==>
              && r == (if env.mallocPhilosophers && env.mallocForks then MutexFail else MallocFail)
              && NoTeardown(party.log)
    ensures var n := party.numberOfPhilosophers;
            PrepareSucceeds(env, n) ==>
              && r == (if env.monitorJoinOk then Success else JoinFail)
              && party.log == PreparedOps(n) + RunOpsIn(env, n) + CleanupOps(n)
  {
    var n := party.numberOfPhilosophers;
    r := PrepareParty(party, env.mallocPhilosophers, env.mallocForks, Outcomes(env.initOk, 2 * n + 2));
    if r != Success {
      if env.mallocPhilosophers && env.mallocForks {
        var k := FirstFailure(Outcomes(env.initOk, 2 * n + 2));
        PrepareOpsNoTeardown(n, k);
        assert party.log == [Alloc(PhilosophersBlock), Alloc(ForksBlock)] + InitOps(n, k);
      } else {
        assert party.log == [] || party.log == [Alloc(PhilosophersBlock)];
      }
      return r;
    }
    assert party.log == PreparedOps(n);
    r := RunDiningParty(party, Outcomes(env.create, n), env.monitorOk, env.now, env.monitorJoinOk,
                        Outcomes(env.joinOk, n));
    if r != Success {
      CleanUp(party);
      return r;
    }
    CleanUp(party);
    return Success;
  }

  /**
    main: a parse failure is returned unchanged before anything is prepared;
    a prepare failure is returned without clean_up (what was acquired stays
    acquired); otherwise the party runs and clean_up runs exactly once,
    whatever the run returned, and the run's result is returned. `party` is
    the record main declares; argv[0] is the program name.
   */
  method RunProgram(party: Party, argv: seq<string>, env: Environment) returns (r: ReturnValue)
    requires party.log == []
    modifies party
    ensures var parsed := ParseArgsSpec(old(party.Configuration()), argv).0;
            parsed != Success ==> r == parsed && party.log == []
    ensures var parsed := ParseArgsSpec(old(party.Configuration()), argv).0;
            var n := party.numberOfPhilosophers;
            parsed == Success && !PrepareSucceeds(env, n) ==>
              && r == (if env.mallocPhilosophers && env.mallocForks then MutexFail else MallocFail)
              && NoTeardown(party.log)
    ensures var parsed := ParseArgsSpec(old(party.Configuration()), argv).0;
            var n := party.numberOfPhilosophers;
            parsed == Success && PrepareSucceeds(env, n) ==>
              && r == (if env.monitorJoinOk then Success else JoinFail)
              && party.log == PreparedOps(n) + RunOpsIn(env, n) + CleanupOps(n)
  {
    r := ParseArgs(party, argv);
    if r != Success {
      return r;
    }
    r := PrepareRunAndCleanUp(party, env);
  }
}
