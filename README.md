# philo — a Dafny model of the dining philosophers program

`philo` runs a dining-philosophers simulation with one POSIX thread per
philosopher and one monitoring thread. It takes four or five numeric
arguments: the number of philosophers, the time to die, the time to eat, the
time to sleep and, optionally, how many meals each philosopher must eat. It
then does the following:

- validates the arguments into a shared `t_party` record;
- allocates the philosophers and a ring of fork mutexes;
- starts the threads behind a guard mutex;
- lets each philosopher loop through fork, fork, eat, sleep, think;
- has the monitor end the run when a philosopher starves or everyone has eaten enough;
- joins the threads and tears everything down.

This project models the sequential logic of that program in Dafny, one module
per C file:

| module | C file | form |
|---|---|---|
| `Defs` | `philo/philosophers.h` | constants, return codes, `Philosopher` record, `Party` class |
| `Utils` | `philo/utils.c` | clock arithmetic, print gate, polling sleep |
| `Input` | `philo/input.c` | digit parser (loop), argument storage into `Party` |
| `Monitoring` | `philo/monitoring_routine.c` | starvation and satisfaction scans, monitor loop |
| `Preparations` | `philo/party_preparations.c` | fork ring, fail-fast mutex initialisation |
| `Routine` | `philo/philo_routine.c` | one philosopher's cycle as an event trace |
| `Cleanup` | `philo/cleanup.c` | joins and teardown |
| `Philosophers` | `philo/philosophers.c` | start time, thread start, `run_dining_party`, `main` |

`t_party` becomes the class `Defs.Party`. Its fields are updated in place by
methods with `modifies` clauses, and its philosophers array is a
`seq<Philosopher>` field.

`unsigned long long` is the subset type `U64`. Its subtraction,
multiplication and addition wrap modulo 2^64 explicitly. The `(int)` cast of
the meal count is written out as two's-complement truncation to 32 bits.

Everything the program asks of the operating system is an oracle parameter:

- clock readings;
- `someone_dead` values read under the `dying` lock;
- `malloc`, `pthread_mutex_init`, `pthread_create` and `pthread_join` outcomes.

Resource effects are recorded in a ghost log `Party.log` of `Op` entries:
allocate, free, init, destroy, lock, unlock, create and join. A philosopher
thread's own behaviour is a trace of `Routine.Event`s. Its printed output is
a sequence of `Line`s (timestamp, philosopher number, message).

Where the program's documentation and its code disagree, the model follows
the code:

- With one philosopher, no fork is ever locked. `eat_sleep_think` returns at
  once and the routine only prints "has taken a fork".
- A failed `prepare_party` returns without releasing what it had already
  allocated or initialised.
- A failed thread creation does not fail the run, because `run_dining_party`
  discards the result of `start_party`. On that path the guard is unlocked
  twice.
- `join_philosopher_threads` stops at the first failed join. Its `ERROR`
  result is not the `JOIN_FAIL` that `join_threads_to_exit_party` tests for,
  so a failed philosopher join after a successful monitor join yields
  `SUCCESS`.

## Model

| member | source | states |
|---|---|---|
| Defs.Sub64 | philo/monitoring_routine.c:43 | unsigned subtraction is the exact difference when no borrow occurs and wraps to 2^64 − (b − a) otherwise |
| Defs.Add64 | philo/input.c:22 | unsigned addition is exact whenever the sum is below 2^64 |
| Defs.Mul64 | philo/input.c:47-51 | unsigned multiplication is exact whenever the product is below 2^64 |
| Utils.GetCurrentTime | philo/utils.c:45-51 | a reading is tv_sec·10^6 + tv_usec whenever that fits in 64 bits, and then its seconds and microseconds are recovered by division and remainder |
| Utils.Timestamp | philo/utils.c:20-21 | the printed timestamp is the number of whole milliseconds in the elapsed microseconds |
| Utils.TimestampMonotone | philo/utils.c:20-21 | before the clock wraps, a later reading never prints an earlier timestamp |
| Utils.PrintWhatsHappening | philo/utils.c:15-25 | at most one line, printed exactly when the flag read is zero, carrying index + 1, the message and the millisecond timestamp |
| Utils.CustomUsleep | philo/utils.c:27-43 | the sleep returns at the first poll where the elapsed unsigned time reaches the duration or the flag is non-zero; the flag is read once per poll until the time is up; a zero duration returns at the first poll without reading the flag |
| Input.ParsedNumber | philo/input.c:15-30 | the parse result never exceeds MAX_TIME_VALUE |
| Input.AsciiToPositiveInt | philo/input.c:15-30 | the digit loop, with 64-bit accumulation and the early exit on overflow, returns exactly ParsedNumber |
| Input.AccumulatorFits | philo/input.c:22-24 | while the running value is at most MAX_TIME_VALUE, value·10 + digit stays below 2^64, so the 64-bit step is exact |
| Input.DigitStringParses | philo/input.c:20-29 | a digit string whose value is at most MAX_TIME_VALUE parses to its decimal value |
| Input.LeadingZeroIgnored | philo/input.c:20-22 | a leading '0' never changes the result |
| Input.NonDigitRejected | philo/input.c:27-28 | a non-digit before the terminator (a sign, a space, a letter) yields 0 |
| Input.EmptyRejected | philo/input.c:20-28 | the empty string yields 0 |
| Input.OverflowRejected | philo/input.c:23-24 | a digit string whose value exceeds MAX_TIME_VALUE yields 0 |
| Input.IntCast | philo/input.c:53 | the cast yields an int, equals the value when it fits, and agrees with it modulo 2^32 |
| Input.MealCountPastIntMaxWraps | philo/input.c:53 | a meal count of 2^31 is accepted and stored as −2^31 |
| Input.StoreArg | philo/input.c:32-55 | success iff the parse is non-zero and, for argument 1, at most 300; a rejection returns ARG_NOT_NUMERIC or TOO_MANY_PHILOS and writes nothing; success writes exactly that argument's field (times ×1000) |
| Input.ZeroRejected | philo/input.c:37-39 | the literal "0" returns ARG_NOT_NUMERIC and leaves the configuration unchanged |
| Input.StoreArgIfValidated | philo/input.c:32-55 | the in-place store returns the code and leaves the party's configuration as StoreArg says |
| Input.ArgumentNumberCheck | philo/input.c:65-74 | SUCCESS iff argc is 5 or 6, otherwise ARG_COUNT_ERROR |
| Input.WrongCountRejected | philo/input.c:82-84 | any other argument count returns ARG_COUNT_ERROR before any field is written |
| Input.ParseArgsOutcome | philo/input.c:85-101 | with k the first rejected argument, the code is that argument's; the fields of arguments before k are written, later ones keep their values, and argc 5 sets the meal count to −1 |
| Input.ParseCodeIgnoresConfig | philo/input.c:76-103 | the return code depends on the arguments alone, not on the record's previous contents |
| Input.ParseArgs | philo/input.c:76-103 | the in-place parse returns the code and the configuration of the specification function ParseArgsSpec |
| Monitoring.LateMealCountsAsStarving | philo/monitoring_routine.c:43 | a last-meal time later than the sampled clock by at most 2^63 µs wraps and counts as starving for every death time parse_args can produce |
| Monitoring.FirstStarvingFrom | philo/monitoring_routine.c:37-48 | the first philosopher from i on whose fresh clock reading shows starvation, or N if there is none |
| Monitoring.SomeoneStarved | philo/monitoring_routine.c:30-51 | SOMEONE_DIED iff some philosopher starves at its own clock reading; the scan stops at the first such philosopher; only that one's "died" line is printed |
| Monitoring.FirstIsLeast | philo/monitoring_routine.c:37-48 | the philosopher at which the ascending scan stops is the first starving one |
| Monitoring.EveryoneIsFed | philo/monitoring_routine.c:69-87 | EVERYONE_IS_FED iff a meal count is configured and every count reaches it; a negative setting reads nobody; the scan stops at the first philosopher below the count |
| Monitoring.MonitorStep | philo/monitoring_routine.c:108-124 | starvation is checked before satisfaction; either one sets someone_dead to 1 and stops; the "died" line is printed while the flag is still zero; the records are only read |
| Monitoring.MonitoringRoutine | philo/monitoring_routine.c:103-127 | the loop stops at the first terminal round with someone_dead = 1; the lines printed are that round's death line, which is a single "died" line when someone starves and the flag was zero on entry; rounds that run out print nothing and leave the flag; the flag is never reset and no record is written |
| Preparations.BorrowedIsNext | philo/party_preparations.c:34-35 | the borrowed fork is the next one round the ring, wrapping to 0 |
| Preparations.LonePhilosopherHasOneFork | philo/party_preparations.c:33-35 | with one philosopher, own and borrowed fork coincide |
| Preparations.ForksFormARing | philo/party_preparations.c:33-35 | with N ≥ 2, own ≠ borrowed, and fork k is the own fork of exactly philosopher k and the borrowed fork of exactly philosopher (k − 1) mod N |
| Preparations.InitOrder | philo/party_preparations.c:61-79 | the initialisation order has 2N + 2 steps: meal_update 0 .. N−1 at positions 0 .. N−1, fork 0 .. N−1 at positions N .. 2N−1, then guard at 2N and dying at 2N + 1 |
| Preparations.InitOpsFollowOrder | philo/party_preparations.c:57-80 | a run that stops after k calls has logged exactly the first k mutexes of that order, in order |
| Preparations.InitOrderListsEachMutexOnce | philo/party_preparations.c:61-79 | the order lists each mutex of the party exactly once and nothing else |
| Preparations.PreparePhilosopher | philo/party_preparations.c:31-42 | writes fork indices, zero meals and the party link into record i only, and logs the meal lock's init iff it succeeded |
| Preparations.PreparePhilosophers | philo/party_preparations.c:61-67 | prepares philosophers in ascending order up to and including the first failed init; the log holds exactly the successful inits |
| Preparations.InitializeForks | philo/party_preparations.c:68-74 | initialises forks in ascending order, stopping at the first failure |
| Preparations.InitializeLocks | philo/party_preparations.c:75-79 | guard, then dying, stopping at the first failure |
| Preparations.InitializeMutexes | philo/party_preparations.c:57-80 | SUCCESS iff every step of the order succeeds, else MUTEX_FAIL; the log is the order's prefix before the first failure |
| Preparations.PrepareParty | philo/party_preparations.c:96-110 | someone_dead is cleared first; each failed malloc gives MALLOC_FAIL; otherwise MUTEX_FAIL or SUCCESS by the mutex inits; on SUCCESS every philosopher is seated on the ring with no meal |
| Routine.CycleMessages | philo/philo_routine.c:36-51 | a completed cycle says, in order: fork, fork, eating, sleeping, thinking |
| Routine.CycleLinesInOrder | philo/philo_routine.c:36-51 | the cycle's printed lines are its five gated print calls in order |
| Routine.AnnounceGate | philo/utils.c:19-24 | when the flag reads zero at the first m prints and non-zero at every later one, exactly the first m messages are printed, in order, each with number index + 1 and its timestamp; this covers a flag down throughout (every message printed), raised throughout (none) and raised part-way |
| Routine.CycleForkOrder | philo/philo_routine.c:35-38 | the own fork is locked before the borrowed one, each followed by "has taken a fork", and no fork is locked later in the cycle |
| Routine.CycleMealTimeUnderForks | philo/philo_routine.c:39-42 | time_last_ate is written while both forks and meal_update are held, before "is eating" |
| Routine.CycleMealCountedAfterForks | philo/philo_routine.c:43-48 | the meal is counted after both forks are released, with only meal_update held |
| Routine.CycleHeld | philo/philo_routine.c:35-48 | a cycle leaves the held set as it found it, minus both forks and meal_update |
| Routine.CycleReleasesAll | philo/philo_routine.c:35-48 | starting with nothing held, nothing is held after a cycle |
| Routine.AfterMeal | philo/philo_routine.c:40-47 | a cycle stores the meal time and adds exactly one meal; the fork indices, the index and the party link are kept |
| Routine.EatSleepThink | philo/philo_routine.c:31-53 | with one philosopher: SINGLE_PHILO_CASE, no event, no line, no record change; otherwise one cycle of events and lines, and only record i updated |
| Routine.RoundsHeld | philo/philo_routine.c:83-95 | after any number of completed rounds, no fork, meal_update or dying lock is held |
| Routine.RoundsFlags | philo/philo_routine.c:90-94 | the loop-condition read of someone_dead (lines 90-92) happens exactly once per completed cycle, with the oracle's values in order; the reads inside print_whats_happening and custom_usleep are not trace events |
| Routine.AfterMeals | philo/philo_routine.c:83-95 | after k cycles, the record has k more meals and the last cycle's meal time |
| Routine.FirstRaised | philo/philo_routine.c:90-94 | the first non-zero flag: all earlier flags are zero |
| Routine.Dine | philo/philo_routine.c:83-95 | with one philosopher, one "has taken a fork" and no cycle; otherwise cycles run until the first non-zero flag, inclusive, and the trace, lines and record are those of exactly that many cycles |
| Routine.DineRound | philo/philo_routine.c:85-94 | one loop pass extends the trace, the lines and the record by exactly one cycle |
| Routine.PhilosopherRoutine | philo/philo_routine.c:71-97 | the guard gate, "is thinking", the even-index stagger, then Dine's outcome |
| Routine.HeldPrologue | philo/philo_routine.c:78-82 | the start gate takes and releases the guard |
| Routine.RoutineReleasesAll | philo/philo_routine.c:71-97 | however the routine ends, the philosopher holds no mutex |
| Cleanup.ForkAndMealOps | philo/cleanup.c:7-13 | the loop destroys fork j, then meal_update j, for j = 0 .. N−1 |
| Cleanup.CleanUp | philo/cleanup.c:3-19 | appends the loop's destroys, then guard, dying, and the two frees |
| Cleanup.CleanupUndoesPreparation | philo/cleanup.c:3-19 | clean_up destroys exactly the mutexes prepare_party initialises and frees both arrays |
| Cleanup.CleanupOpsDistinct | philo/cleanup.c:3-19 | clean_up performs no operation twice |
| Cleanup.JoinLog | philo/cleanup.c:39-47 | the j-th join is philosopher j's thread with its oracle outcome |
| Cleanup.JoinedUpToFirstFailure | philo/cleanup.c:39-47 | philosopher j is joined iff j is not past the first failed join |
| Cleanup.JoinPhilosopherThreads | philo/cleanup.c:34-49 | joins in ascending order up to and including the first failure, returning ERROR then, else SUCCESS |
| Cleanup.JoinMonitoringThread | philo/cleanup.c:62-70 | one join; JOIN_FAIL iff it fails |
| Cleanup.JoinThreadsToExitParty | philo/cleanup.c:72-82 | the monitor is joined first, the philosophers are joined either way, and the result depends on the monitor join alone |
| Philosophers.InitializePartyStartTime | philo/philosophers.c:3-14 | one clock reading becomes the start time and every philosopher's last-meal time; nothing else changes |
| Philosophers.CreateLog | philo/philosophers.c:21-29 | thread creations happen in ascending order |
| Philosophers.StartPhilosopher | philo/start_threads.c:15-25 | the index is set before the creation; THREAD_FAIL iff the creation fails |
| Philosophers.StartMonitoring | philo/start_threads.c:27-36 | THREAD_FAIL iff the monitor's creation fails |
| Philosophers.StartPhilosophers | philo/philosophers.c:20-29 | starts philosophers in order; the first failure unlocks the guard and returns THREAD_FAIL; indices are set up to and including the failing one |
| Philosophers.StartParty | philo/philosophers.c:16-37 | SUCCESS iff every creation succeeds; the start time and last-meal times are set only when all philosophers started |
| Philosophers.StartOrdering | philo/philosophers.c:21-31 | the clock is read iff every philosopher thread was created; the monitor is created iff start_party succeeds |
| Philosophers.RunDiningParty | philo/philosophers.c:40-48 | the result is SUCCESS or JOIN_FAIL by the monitor join alone, whatever start_party returned; the start time is the clock reading when every philosopher was started and is unchanged otherwise |
| Philosophers.StartOpsGuardCount | philo/philosophers.c:25-33 | start_party never locks the guard and unlocks it once exactly when it fails |
| Philosophers.RunOpsGuardOp | philo/philosophers.c:42-44 | run_dining_party adds one guard lock and one unlock around start_party |
| Philosophers.GuardUnlockedTwiceOnStartFailure | philo/philosophers.c:25-44 | the guard is locked once and unlocked once on success, twice when start_party fails |
| Philosophers.TeardownOnlyInCleanup | philo/philosophers.c:70-80 | preparing and running destroy no mutex and free no array |
| Philosophers.PrepareRunAndCleanUp | philo/philosophers.c:70-80 | a failed prepare returns prepare_party's own code (MALLOC_FAIL when an allocation failed, MUTEX_FAIL when a mutex init failed) with nothing torn down; otherwise the log is prepare, run, then exactly one clean_up, and the result is the run's |
| Philosophers.RunProgram | philo/philosophers.c:62-81 | a parse error is returned unchanged with nothing acquired; then prepare_party's own failure code (MALLOC_FAIL or MUTEX_FAIL by which step failed) with nothing torn down, or the run's result with exactly one clean_up after it |

## Left out

- Concurrency: interleavings, mutual exclusion between threads and deadlock
  freedom are not modelled. Each thread is modelled alone, and what other
  threads do reaches it only through oracle readings (the clock and
  `someone_dead`).
- `RunDiningParty` does not run the philosopher and monitoring routines. The
  effect of the created threads on the records happens concurrently and is
  not modelled there. `Routine.PhilosopherRoutine` and
  `Monitoring.MonitoringRoutine` model those threads on their own.
- Monitoring.MonitoringRoutine: every round reads the same philosopher
  records, because the philosophers' concurrent updates between rounds are
  not modelled. Only the clock readings change from round to round, so
  after the first round only starvation can end the loop. A run that ends
  with everyone fed after further meals is not represented.
- Wall-clock time and `usleep`: `gettimeofday` readings are parameters. The
  500 µs pauses in `custom_usleep` and in the monitor loop are not modelled.
- The `while (1)` loops (philosopher, monitor, polling sleep) run over finite
  oracles:
  - a philosopher needs a sequence of cycles whose sleeps end (`CyclesEnd`)
    and a raised flag among its flag readings;
  - the monitor stops or runs out of rounds;
  - `custom_usleep` needs a poll at which it returns.

  Runs that never end are not modelled.
- `printf` text: the usage text, the error messages and the text of each
  event are left out. Lines carry a `Message` value instead. The usage text
  says at most 200 philosophers while the check allows 300; the model follows
  the check.
- `philo/cleanup.c:16` destroys `reporting_enough_meals`, a field `t_party`
  does not have; that line is not part of this model.
- Memory contents: `malloc` outcomes are booleans. Freshly allocated records
  are modelled as `Unprepared`.
- `pthread_mutex_init`, `pthread_create` and `pthread_join` outcomes are
  booleans, one per call.
- A philosopher's event trace records only the loop-condition read of
  `someone_dead` (philo/philo_routine.c:90-92), with the `dying` lock around
  it. The `dying` lock and the flag reads inside `print_whats_happening`
  are not trace events; they show only through which lines are printed.
  The flag reads inside `custom_usleep` are not modelled at the routine
  level: a cycle does not depend on when a sleep returns.
- Joining a thread that was never created is an oracle outcome like any
  other; in C it is undefined behaviour. This happens in two cases. One is
  the join of a philosopher whose creation was never attempted. The other
  is the join of `monitoring_thread` after a philosopher's creation failed:
  `start_party` then returns before `start_monitoring`
  (philo/philosophers.c:23-27), yet `join_monitoring_thread` joins it
  (philo/cleanup.c:64). On that path no monitor raises `someone_dead`, so
  in C the started philosophers' joins need not return; the model gives
  every join an outcome.
- Routine.AfterMeal: `meal_count` is an unbounded integer, so its `int`
  overflow after 2^31 − 1 meals is not modelled.
- Philosophers.RunProgram: the environment's oracle outcomes are functions
  of the call index, so each run sees one fixed outcome per call.
