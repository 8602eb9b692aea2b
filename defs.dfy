/**
  Constants, return codes and records shared by every part of the dining
  philosophers program (philo/philosophers.h).
 */
module Defs {

  const ExpectArgCount := 5
  const ExpectArgCountWithMeals := 6
  const MaxAmountPhiloAllowed := 300
  const MaxTimeValue := 9223372036854775

  /** `unsigned long long`: arithmetic on it wraps modulo 2^64. */
  const U64Modulus := 0x1_0000_0000_0000_0000
  type U64 = x: int | 0 <= x < U64Modulus

  /** Largest value of a C `int`. */
  const IntMax := 0x7fff_ffff

  /** Unsigned 64-bit subtraction, `a - b` in C. */
  function Sub64(a: U64, b: U64): (r: U64)
    ensures b <= a ==> r == a - b
    ensures a < b ==> r == U64Modulus - (b - a)
  {
    (a - b) % U64Modulus
  }

  /** Unsigned 64-bit addition and multiplication. */
  function Add64(a: U64, b: U64): (r: U64)
    ensures a + b < U64Modulus ==> r == a + b
  {
    (a + b) % U64Modulus
  }

  function Mul64(a: U64, b: U64): (r: U64)
    ensures a * b < U64Modulus ==> r == a * b
  {
    var product: nat := a * b;
    product % U64Modulus
  }

  /** The return codes of every function of the program (enum e_return_value). */
  datatype ReturnValue =
    | Success
    | Error
    | ArgCountError
    | ArgNotNumeric
    | TooManyPhilos
    | MallocFail
    | MutexFail
    | ThreadFail
    | JoinFail
    | SinglePhiloCase
    | LifeGoesOn
    | SomeoneDied
    | EveryoneIsFed

  /**
    One philosopher (t_philosopher). The two fork pointers become indices into
    the ring of forks; the back-pointer to the party becomes `seated`, true once
    it has been set. The thread handle and the meal_update mutex are tracked by
    the party's operation log instead.
   */
  datatype Philosopher = Philosopher(
    forkOwn: nat,
    forkBorrowed: nat,
    mealCount: int,
    index: nat,
    timeLastAte: U64,
    seated: bool)

  /** What freshly allocated, not yet prepared memory holds. */
  const Unprepared := Philosopher(0, 0, 0, 0, 0, false)

  /** The messages print_whats_happening is called with. */
  datatype Message = TakenFork | Eating | Sleeping | Thinking | Died

  /** One printed line: timestamp in ms, philosopher number (index + 1), message. */
  datatype Line = Line(timestamp: U64, number: int, message: Message)

  /** The mutexes of a party, the threads it starts, the blocks it allocates. */
  datatype Mutex = Fork(f: nat) | MealUpdate(p: nat) | Guard | Dying
  datatype Thread = PhilosopherThread(t: nat) | MonitoringThread
  datatype Block = PhilosophersBlock | ForksBlock

  /**
    Operations on resources, in the order they happen. Failed allocations,
    failed mutex initialisations and failed thread creations acquire nothing
    and leave no entry; every join attempt is logged with its outcome.
   */
  datatype Op =
    | Alloc(block: Block)
    | Free(block: Block)
    | Init(mutex: Mutex)
    | Destroy(mutex: Mutex)
    | Lock(mutex: Mutex)
    | Unlock(mutex: Mutex)
    | Create(thread: Thread)
    | Join(thread: Thread, joined: bool)
    | StartClock(time: U64)

  /** The configuration part of a party, as parse_args fills it. */
  datatype Config = Config(
    numberOfPhilosophers: nat,
    timeToDie: U64,
    timeToEat: U64,
    timeToSleep: U64,
    numberOfMeals: int)

  /** The shared state of one run (t_party). */
  class Party {
    var numberOfPhilosophers: nat
    var timeToDie: U64
    var timeToEat: U64
    var timeToSleep: U64
    var partyStartTime: U64
    var numberOfMeals: int
    var philosophers: seq<Philosopher>
    var someoneDead: nat
    ghost var log: seq<Op>

    /** A party as declared on main's stack: nothing initialised yet. */
    constructor ()
      ensures log == []
    {
      log := [];
    }

    function Configuration(): (c: Config)
      reads this
      ensures c.numberOfPhilosophers == numberOfPhilosophers && c.numberOfMeals == numberOfMeals
    {
      Config(numberOfPhilosophers, timeToDie, timeToEat, timeToSleep, numberOfMeals)
    }

    /** The philosophers array has been allocated for every philosopher. */
    predicate Allocated()
      reads this`philosophers, this`numberOfPhilosophers
    {
      |philosophers| == numberOfPhilosophers
    }
  }
}
