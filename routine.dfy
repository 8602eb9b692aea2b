/**
  One philosopher's life (philo/philo_routine.c) as a single-agent state
  machine. The philosopher's record is updated in place; what the thread
  does besides that (locking, printing, sleeping, reading the flag) is
  returned as an event trace, and every clock and flag reading it takes
  comes from an oracle.
 */
module Routine {
  import opened Defs
  import opened Utils

  /** What one philosopher thread does, in order. */
  datatype Event =
    | Acquire(mutex: Mutex)
    | Release(mutex: Mutex)
    | Say(message: Message)
    | SetLastAte(time: U64)
    | CountMeal
    | Sleep(duration: U64)
    | ReadFlag(value: nat)

  /** The mutexes held after one event. */
  function Step(held: set<Mutex>, event: Event): set<Mutex>
  {
    match event
    case Acquire(m) => held + {m}
    case Release(m) => held - {m}
    case _ => held
  }

  /** The mutexes the philosopher holds after the events, starting from `held`. */
  function Held(held: set<Mutex>, events: seq<Event>): set<Mutex>
    decreases |events|
  {
    if events == [] then held else Held(Step(held, events[0]), events[1..])
  }

  lemma HeldCons(held: set<Mutex>, event: Event, rest: seq<Event>)
    ensures Held(held, [event] + rest) == Held(Step(held, event), rest)
  {
    assert ([event] + rest)[1..] == rest;
  }

  /** Running events one after another is running their concatenation. */
  lemma {:induction false} HeldAppend(held: set<Mutex>, a: seq<Event>, b: seq<Event>)
    ensures Held(held, a + b) == Held(Held(held, a), b)
    decreases |a|
  {
    if a == [] {
      assert a + b == b;
    } else {
      assert (a + b)[0] == a[0] && (a + b)[1..] == a[1..] + b;
      HeldAppend(Step(held, a[0]), a[1..], b);
    }
  }

  /** The messages of the print_whats_happening calls among the events. */
  function Said(events: seq<Event>): (messages: seq<Message>)
    ensures |messages| <= |events|
  {
    if events == [] then []
    else (if events[0].Say? then [events[0].message] else []) + Said(events[1..])
  }

  lemma {:induction false} SaidAppend(a: seq<Event>, b: seq<Event>)
    ensures Said(a + b) == Said(a) + Said(b)
    decreases |a|
  {
    if a == [] {
      assert a + b == b;
    } else {
      assert (a + b)[0] == a[0] && (a + b)[1..] == a[1..] + b;
      SaidAppend(a[1..], b);
    }
  }

  /** The values of someone_dead read among the events. */
  function FlagsRead(events: seq<Event>): (values: seq<nat>)
    ensures |values| <= |events|
  {
    if events == [] then []
    else (if events[0].ReadFlag? then [events[0].value] else []) + FlagsRead(events[1..])
  }

  lemma {:induction false} FlagsReadAppend(a: seq<Event>, b: seq<Event>)
    ensures FlagsRead(a + b) == FlagsRead(a) + FlagsRead(b)
    decreases |a|
  {
    if a == [] {
      assert a + b == b;
    } else {
      assert (a + b)[0] == a[0] && (a + b)[1..] == a[1..] + b;
      FlagsReadAppend(a[1..], b);
    }
  }

  /**
    The readings one eat_sleep_think call takes: the stamps of its five
    print_whats_happening calls, the clock reading stored as time_last_ate,
    and the two custom_usleep calls.
   */
  datatype Cycle = Cycle(
    firstFork: Stamp,
    secondFork: Stamp,
    ateAt: U64,
    eating: Stamp,
    eatNap: Nap,
    sleeping: Stamp,
    sleepNap: Nap,
    thinking: Stamp)

  /** Both sleeps of a cycle return on their oracle readings. */
  predicate CycleEnds(c: Cycle, timeToEat: U64, timeToSleep: U64)
  {
    NapEnds(timeToEat, c.eatNap) && NapEnds(timeToSleep, c.sleepNap)
  }

  /** Every cycle of the oracle ends both its sleeps. */
  predicate CyclesEnd(cycles: seq<Cycle>, timeToEat: U64, timeToSleep: U64)
  {
    cycles == [] || (CycleEnds(cycles[0], timeToEat, timeToSleep) && CyclesEnd(cycles[1..], timeToEat, timeToSleep))
  }

  lemma {:induction false} CyclesEndAt(cycles: seq<Cycle>, k: nat, timeToEat: U64, timeToSleep: U64)
    requires CyclesEnd(cycles, timeToEat, timeToSleep) && k < |cycles|
    ensures CycleEnds(cycles[k], timeToEat, timeToSleep)
    decreases k
  {
    if k > 0 {
      CyclesEndAt(cycles[1..], k - 1, timeToEat, timeToSleep);
    }
  }

  /** The readings of a cycle that is never run (the single-philosopher case). */
  const Skipped := Cycle(Stamp(0, 0), Stamp(0, 0), 0, Stamp(0, 0), Nap(0, []), Stamp(0, 0), Nap(0, []), Stamp(0, 0))

  /** Picking up the forks: own fork first, each followed by its message. */
  function PickUp(own: nat, borrowed: nat): seq<Event>
  {
    [Acquire(Fork(own)), Say(TakenFork), Acquire(Fork(borrowed)), Say(TakenFork)]
  }

  /** The meal: time_last_ate under meal_update, the message, the eating sleep. */
  function Eat(i: nat, ateAt: U64, timeToEat: U64): seq<Event>
  {
    [Acquire(MealUpdate(i)), SetLastAte(ateAt), Release(MealUpdate(i)), Say(Eating), Sleep(timeToEat)]
  }

  /** Putting the forks down, then counting the meal under meal_update. */
  function PutDown(i: nat, own: nat, borrowed: nat): seq<Event>
  {
    [Release(Fork(own)), Release(Fork(borrowed)), Acquire(MealUpdate(i)), CountMeal, Release(MealUpdate(i))]
  }

  function Rest(timeToSleep: U64): seq<Event>
  {
    [Say(Sleeping), Sleep(timeToSleep), Say(Thinking)]
  }

  /** The events of one completed eat_sleep_think call of philosopher i. */
  function CycleEvents(i: nat, own: nat, borrowed: nat, ateAt: U64, timeToEat: U64, timeToSleep: U64)
    : (events: seq<Event>)
    ensures |events| == 17
  {
    PickUp(own, borrowed) + Eat(i, ateAt, timeToEat) + PutDown(i, own, borrowed) + Rest(timeToSleep)
  }

  /** The lines of print_whats_happening calls with these stamps and messages, in order. */
  function Announce(p: Philosopher, start: U64, stamps: seq<Stamp>, messages: seq<Message>): seq<Line>
    requires |stamps| == |messages|
  {
    if stamps == [] then [] else Print(stamps[0], start, p, messages[0]) + Announce(p, start, stamps[1..], messages[1..])
  }

  /** The messages of a cycle, in the order eat_sleep_think prints them. */
  const Announcements: seq<Message> := [TakenFork, TakenFork, Eating, Sleeping, Thinking]

  function CycleStamps(c: Cycle): seq<Stamp>
  {
    [c.firstFork, c.secondFork, c.eating, c.sleeping, c.thinking]
  }

  /** The lines one completed eat_sleep_think call prints. */
  function CycleLines(p: Philosopher, start: U64, c: Cycle): seq<Line>
  {
    Announce(p, start, CycleStamps(c), Announcements)
  }

  lemma AnnounceCons(p: Philosopher, start: U64, stamp: Stamp, message: Message, stamps: seq<Stamp>, messages: seq<Message>)
    requires |stamps| == |messages|
    ensures Announce(p, start, [stamp] + stamps, [message] + messages)
            == Print(stamp, start, p, message) + Announce(p, start, stamps, messages)
  {
    assert ([stamp] + stamps)[1..] == stamps && ([message] + messages)[1..] == messages;
  }

  /** The five print calls of a cycle, one after another. */
  lemma CycleLinesInOrder(p: Philosopher, start: U64, c: Cycle)
    ensures CycleLines(p, start, c)
            == Print(c.firstFork, start, p, TakenFork) + Print(c.secondFork, start, p, TakenFork)
               + Print(c.eating, start, p, Eating) + Print(c.sleeping, start, p, Sleeping)
               + Print(c.thinking, start, p, Thinking)
  {
    var st, ms := CycleStamps(c), Announcements;
    AnnounceCons(p, start, st[4], ms[4], [], []);
    AnnounceCons(p, start, st[3], ms[3], st[4..], ms[4..]);
    AnnounceCons(p, start, st[2], ms[2], st[3..], ms[3..]);
    AnnounceCons(p, start, st[1], ms[1], st[2..], ms[2..]);
    AnnounceCons(p, start, st[0], ms[0], st[1..], ms[1..]);
    assert st == [st[0]] + st[1..] && st[1..] == [st[1]] + st[2..] && st[2..] == [st[2]] + st[3..];
    assert st[3..] == [st[3]] + st[4..] && st[4..] == [st[4]] + [];
    assert ms == [ms[0]] + ms[1..] && ms[1..] == [ms[1]] + ms[2..] && ms[2..] == [ms[2]] + ms[3..];
    assert ms[3..] == [ms[3]] + ms[4..] && ms[4..] == [ms[4]] + [];
  }

  /**
    Printing is gated by the flag alone. When the flag reads zero at the
    first m prints and non-zero at every later one (it is never reset), the
    first m messages are printed in order, each with the philosopher's
    number and its timestamp, and every later one is dropped. m = |stamps|
    is a cycle with the flag down throughout, m = 0 one with it raised.
   */
  lemma {:induction false} AnnounceGate(p: Philosopher, start: U64, stamps: seq<Stamp>, messages: seq<Message>, m: nat)
    requires |stamps| == |messages| && m <= |stamps|
    requires forall k :: 0 <= k < m ==> stamps[k].flag == 0
    requires forall k :: m <= k < |stamps| ==> stamps[k].flag != 0
    ensures var lines := Announce(p, start, stamps, messages);
            && |lines| == m
            && forall k :: 0 <= k < m ==> lines[k] == Line(Timestamp(stamps[k].now, start), p.index + 1, messages[k])
    decreases |stamps|
  {
    if stamps != [] {
      var m' := if m == 0 then 0 else m - 1;
      assert forall k :: 0 <= k < m' ==> stamps[1..][k].flag == 0 by {
        forall k | 0 <= k < m' ensures stamps[1..][k].flag == 0 { assert stamps[1..][k] == stamps[k + 1]; }
      }
      assert forall k :: m' <= k < |stamps[1..]| ==> stamps[1..][k].flag != 0 by {
        forall k | m' <= k < |stamps[1..]| ensures stamps[1..][k].flag != 0 { assert stamps[1..][k] == stamps[k + 1]; }
      }
      AnnounceGate(p, start, stamps[1..], messages[1..], m');
      if m > 0 {
        var rest := Announce(p, start, stamps[1..], messages[1..]);
        assert forall k :: 1 <= k < m ==> Announce(p, start, stamps, messages)[k] == rest[k - 1];
      }
    }
  }

  /** The lines depend on the philosopher only through its index. */
  lemma {:induction false} AnnounceByIndex(p: Philosopher, q: Philosopher, start: U64, stamps: seq<Stamp>,
                                           messages: seq<Message>)
    requires p.index == q.index && |stamps| == |messages|
    ensures Announce(p, start, stamps, messages) == Announce(q, start, stamps, messages)
    decreases |stamps|
  {
    if stamps != [] {
      AnnounceByIndex(p, q, start, stamps[1..], messages[1..]);
    }
  }

  /** The lines depend on the philosopher only through its index. */
  lemma CycleLinesByIndex(p: Philosopher, q: Philosopher, start: U64, c: Cycle)
    requires p.index == q.index
    ensures CycleLines(p, start, c) == CycleLines(q, start, c)
  {
    AnnounceByIndex(p, q, start, CycleStamps(c), Announcements);
  }

  /** The record after a completed cycle: the new meal time and one more meal. */
  function AfterMeal(p: Philosopher, ateAt: U64): (q: Philosopher)
    ensures q.mealCount == p.mealCount + 1 && q.timeLastAte == ateAt
    ensures q.forkOwn == p.forkOwn && q.forkBorrowed == p.forkBorrowed && q.index == p.index
    ensures q.seated == p.seated
  {
    p.(timeLastAte := ateAt, mealCount := p.mealCount + 1)
  }

  /**
    A completed cycle announces, in order: two forks, eating, sleeping,
    thinking.
   */
  lemma CycleMessages(i: nat, own: nat, borrowed: nat, ateAt: U64, timeToEat: U64, timeToSleep: U64)
    ensures Said(CycleEvents(i, own, borrowed, ateAt, timeToEat, timeToSleep))
            == [TakenFork, TakenFork, Eating, Sleeping, Thinking]
  {
    SaidPickUp(own, borrowed);
    SaidEat(i, ateAt, timeToEat);
    SaidPutDown(i, own, borrowed);
    SaidRest(timeToSleep);
    SaidAppend(PickUp(own, borrowed), Eat(i, ateAt, timeToEat));
    SaidAppend(PickUp(own, borrowed) + Eat(i, ateAt, timeToEat), PutDown(i, own, borrowed));
    SaidAppend(PickUp(own, borrowed) + Eat(i, ateAt, timeToEat) + PutDown(i, own, borrowed), Rest(timeToSleep));
  }

  lemma SaidCons(event: Event, rest: seq<Event>)
    ensures Said([event] + rest) == (if event.Say? then [event.message] else []) + Said(rest)
  {
    assert ([event] + rest)[1..] == rest;
  }

  lemma SaidPickUp(own: nat, borrowed: nat)
    ensures Said(PickUp(own, borrowed)) == [TakenFork, TakenFork]
  {
    var e := PickUp(own, borrowed);
    SaidCons(e[0], e[1..]);
    SaidCons(e[1], e[2..]);
    SaidCons(e[2], e[3..]);
    SaidCons(e[3], []);
  }

  lemma SaidEat(i: nat, ateAt: U64, timeToEat: U64)
    ensures Said(Eat(i, ateAt, timeToEat)) == [Eating]
  {
    var e := Eat(i, ateAt, timeToEat);
    SaidCons(e[0], e[1..]);
    SaidCons(e[1], e[2..]);
    SaidCons(e[2], e[3..]);
    SaidCons(e[3], e[4..]);
    SaidCons(e[4], []);
  }

  lemma SaidPutDown(i: nat, own: nat, borrowed: nat)
    ensures Said(PutDown(i, own, borrowed)) == []
  {
    var e := PutDown(i, own, borrowed);
    SaidCons(e[0], e[1..]);
    SaidCons(e[1], e[2..]);
    SaidCons(e[2], e[3..]);
    SaidCons(e[3], e[4..]);
    SaidCons(e[4], []);
  }

  lemma SaidRest(timeToSleep: U64)
    ensures Said(Rest(timeToSleep)) == [Sleeping, Thinking]
  {
    var e := Rest(timeToSleep);
    SaidCons(e[0], e[1..]);
    SaidCons(e[1], e[2..]);
    SaidCons(e[2], []);
  }

  lemma HeldPickUp(held: set<Mutex>, own: nat, borrowed: nat)
    ensures Held(held, PickUp(own, borrowed)) == held + {Fork(own), Fork(borrowed)}
  {
    var e := PickUp(own, borrowed);
    HeldCons(held, e[0], e[1..]);
    HeldCons(held + {Fork(own)}, e[1], e[2..]);
    HeldCons(held + {Fork(own)}, e[2], e[3..]);
    HeldCons(held + {Fork(own), Fork(borrowed)}, e[3], []);
  }

  lemma HeldEat(held: set<Mutex>, i: nat, ateAt: U64, timeToEat: U64)
    ensures Held(held, Eat(i, ateAt, timeToEat)) == held - {MealUpdate(i)}
  {
    var e := Eat(i, ateAt, timeToEat);
    var locked := held + {MealUpdate(i)};
    HeldCons(held, e[0], e[1..]);
    HeldCons(locked, e[1], e[2..]);
    HeldCons(locked, e[2], e[3..]);
    HeldCons(locked - {MealUpdate(i)}, e[3], e[4..]);
    HeldCons(locked - {MealUpdate(i)}, e[4], []);
  }

  lemma HeldForksDown(held: set<Mutex>, i: nat, own: nat, borrowed: nat)
    ensures Held(held, PutDown(i, own, borrowed)[..3]) == held - {Fork(own), Fork(borrowed)} + {MealUpdate(i)}
  {
    var e := PutDown(i, own, borrowed)[..3];
    HeldCons(held, e[0], e[1..]);
    HeldCons(held - {Fork(own)}, e[1], e[2..]);
    HeldCons(held - {Fork(own), Fork(borrowed)}, e[2], []);
  }

  lemma HeldPutDown(held: set<Mutex>, i: nat, own: nat, borrowed: nat)
    ensures Held(held, PutDown(i, own, borrowed)) == held - {Fork(own), Fork(borrowed), MealUpdate(i)}
  {
    var e := PutDown(i, own, borrowed);
    var down := held - {Fork(own), Fork(borrowed)} + {MealUpdate(i)};
    assert e == e[..3] + e[3..];
    HeldForksDown(held, i, own, borrowed);
    HeldAppend(held, e[..3], e[3..]);
    HeldCons(down, e[3], e[4..]);
    HeldCons(down, e[4], []);
  }

  lemma HeldRest(held: set<Mutex>, timeToSleep: U64)
    ensures Held(held, Rest(timeToSleep)) == held
  {
    var e := Rest(timeToSleep);
    HeldCons(held, e[0], e[1..]);
    HeldCons(held, e[1], e[2..]);
    HeldCons(held, e[2], []);
  }

  /** A cycle releases everything it locks: what was held before is held after, forks and meal_update aside. */
  lemma CycleHeld(held: set<Mutex>, i: nat, own: nat, borrowed: nat, ateAt: U64, timeToEat: U64, timeToSleep: U64)
    ensures Held(held, CycleEvents(i, own, borrowed, ateAt, timeToEat, timeToSleep))
            == held - {Fork(own), Fork(borrowed), MealUpdate(i)}
  {
    var pick, eat, put, rest := PickUp(own, borrowed), Eat(i, ateAt, timeToEat), PutDown(i, own, borrowed), Rest(timeToSleep);
    var picked := held + {Fork(own), Fork(borrowed)};
    HeldPickUp(held, own, borrowed);
    HeldAppend(held, pick, eat);
    HeldEat(picked, i, ateAt, timeToEat);
    HeldAppend(held, pick + eat, put);
    HeldPutDown(picked - {MealUpdate(i)}, i, own, borrowed);
    HeldAppend(held, pick + eat + put, rest);
    HeldRest(picked - {MealUpdate(i)} - {Fork(own), Fork(borrowed), MealUpdate(i)}, timeToSleep);
  }

  /**
    The own fork is locked before the borrowed one, each lock followed by "has
    taken a fork", and no fork is locked later in the cycle.
   */
  lemma CycleForkOrder(i: nat, own: nat, borrowed: nat, ateAt: U64, timeToEat: U64, timeToSleep: U64)
    ensures var e := CycleEvents(i, own, borrowed, ateAt, timeToEat, timeToSleep);
            && e[..4] == [Acquire(Fork(own)), Say(TakenFork), Acquire(Fork(borrowed)), Say(TakenFork)]
            && forall k :: 4 <= k < |e| ==> !(e[k].Acquire? && e[k].mutex.Fork?)
  {
  }

  /**
    time_last_ate is written while both forks and meal_update are held, and
    "is eating" follows two events later.
   */
  lemma CycleMealTimeUnderForks(i: nat, own: nat, borrowed: nat, ateAt: U64, timeToEat: U64, timeToSleep: U64)
    ensures var e := CycleEvents(i, own, borrowed, ateAt, timeToEat, timeToSleep);
            forall k :: 0 <= k < |e| && e[k].SetLastAte? ==>
              Held({}, e[..k]) == {Fork(own), Fork(borrowed), MealUpdate(i)} && e[k + 2] == Say(Eating)
  {
    var pick, eat, put, rest := PickUp(own, borrowed), Eat(i, ateAt, timeToEat), PutDown(i, own, borrowed), Rest(timeToSleep);
    var e := pick + eat + put + rest;
    assert forall k :: 0 <= k < |e| && e[k].SetLastAte? ==> k == 5;
    assert e[..5] == pick + [Acquire(MealUpdate(i))];
    HeldPickUp({}, own, borrowed);
    HeldAppend({}, pick, [Acquire(MealUpdate(i))]);
    HeldCons({Fork(own), Fork(borrowed)}, Acquire(MealUpdate(i)), []);
  }

  /** The meal is counted after both forks are released, with only meal_update held. */
  lemma CycleMealCountedAfterForks(i: nat, own: nat, borrowed: nat, ateAt: U64, timeToEat: U64, timeToSleep: U64)
    ensures var e := CycleEvents(i, own, borrowed, ateAt, timeToEat, timeToSleep);
            forall k :: 0 <= k < |e| && e[k] == CountMeal ==> Held({}, e[..k]) == {MealUpdate(i)}
  {
    var pick, eat, put, rest := PickUp(own, borrowed), Eat(i, ateAt, timeToEat), PutDown(i, own, borrowed), Rest(timeToSleep);
    var e := pick + eat + put + rest;
    var both := {Fork(own), Fork(borrowed)};
    assert forall k :: 0 <= k < |e| && e[k] == CountMeal ==> k == 12;
    assert e[..12] == (pick + eat) + put[..3];
    HeldPickUp({}, own, borrowed);
    HeldEat(both, i, ateAt, timeToEat);
    HeldAppend({}, pick, eat);
    assert Held({}, pick) == both;
    assert Held({}, pick + eat) == both - {MealUpdate(i)};
    HeldAppend({}, pick + eat, put[..3]);
    HeldForksDown(both - {MealUpdate(i)}, i, own, borrowed);
  }

  /** Starting with nothing held, nothing is held after a cycle. */
  lemma CycleReleasesAll(i: nat, own: nat, borrowed: nat, ateAt: U64, timeToEat: U64, timeToSleep: U64)
    ensures Held({}, CycleEvents(i, own, borrowed, ateAt, timeToEat, timeToSleep)) == {}
  {
    CycleHeld({}, i, own, borrowed, ateAt, timeToEat, timeToSleep);
  }

  /**
    eat_sleep_think: with a single philosopher it returns SINGLE_PHILO_CASE at
    once, touching nothing; otherwise it runs one cycle on the readings `c`,
    storing the meal time and counting the meal in philosopher i's record.
   */
  method EatSleepThink(party: Party, i: nat, c: Cycle) returns (r: ReturnValue, events: seq<Event>, lines: seq<Line>)
    requires party.Allocated() && i < party.numberOfPhilosophers
    requires party.numberOfPhilosophers != 1 ==> CycleEnds(c, party.timeToEat, party.timeToSleep)
    modifies party`philosophers
    ensures party.numberOfPhilosophers == 1 ==>
              r == SinglePhiloCase && events == [] && lines == [] && party.philosophers == old(party.philosophers)
    ensures party.numberOfPhilosophers != 1 ==>
              var p := old(party.philosophers[i]);
              && r == Success
              && events == CycleEvents(i, p.forkOwn, p.forkBorrowed, c.ateAt, party.timeToEat, party.timeToSleep)
              && lines == CycleLines(p, party.partyStartTime, c)
              && party.philosophers == old(party.philosophers)[i := AfterMeal(p, c.ateAt)]
  {
    if party.numberOfPhilosophers == 1 {
      return SinglePhiloCase, [], [];
    }
    var p := party.philosophers[i];
    var start := party.partyStartTime;
    events := [Acquire(Fork(p.forkOwn))];
    lines := Print(c.firstFork, start, p, TakenFork);
    events := events + [Say(TakenFork), Acquire(Fork(p.forkBorrowed))];
    lines := lines + Print(c.secondFork, start, p, TakenFork);
    events := events + [Say(TakenFork)];
    assert events == PickUp(p.forkOwn, p.forkBorrowed);
    ghost var picked := events;
    events := events + [Acquire(MealUpdate(i))];
    party.philosophers := party.philosophers[i := party.philosophers[i].(timeLastAte := c.ateAt)];
    events := events + [SetLastAte(c.ateAt), Release(MealUpdate(i))];
    lines := lines + Print(c.eating, start, p, Eating);
    events := events + [Say(Eating)];
    var _, _ := CustomUsleep(party.timeToEat, c.eatNap);
    events := events + [Sleep(party.timeToEat)];
    assert events == picked + Eat(i, c.ateAt, party.timeToEat);
    ghost var eaten := events;
    events := events + [Release(Fork(p.forkOwn)), Release(Fork(p.forkBorrowed)), Acquire(MealUpdate(i))];
    party.philosophers := party.philosophers[i := party.philosophers[i].(mealCount := party.philosophers[i].mealCount + 1)];
    events := events + [CountMeal, Release(MealUpdate(i))];
    assert events == eaten + PutDown(i, p.forkOwn, p.forkBorrowed);
    ghost var putDown := events;
    lines := lines + Print(c.sleeping, start, p, Sleeping);
    events := events + [Say(Sleeping)];
    var _, _ := CustomUsleep(party.timeToSleep, c.sleepNap);
    events := events + [Sleep(party.timeToSleep)];
    lines := lines + Print(c.thinking, start, p, Thinking);
    events := events + [Say(Thinking)];
    assert events == putDown + Rest(party.timeToSleep);
    CycleLinesInOrder(p, start, c);
    r := Success;
  }

  /**
    The start of philosopher_routine: through the guard gate, "is thinking",
    and for an even index a first sleep of time_to_eat / 10.
   */
  function Prologue(index: nat, timeToEat: U64): seq<Event>
  {
    [Acquire(Guard), Release(Guard), Say(Thinking)] + if index % 2 == 0 then [Sleep(timeToEat / 10)] else []
  }

  /** The flag check after a completed cycle, under the dying lock. */
  function FlagCheck(flag: nat): seq<Event>
  {
    [Acquire(Dying), ReadFlag(flag), Release(Dying)]
  }

  /** The events of the completed cycles, each followed by its flag check. */
  function Rounds(i: nat, own: nat, borrowed: nat, cycles: seq<Cycle>, flags: seq<nat>, timeToEat: U64, timeToSleep: U64)
    : (events: seq<Event>)
    requires |cycles| == |flags|
    ensures |events| == 20 * |cycles|
  {
    if cycles == [] then []
    else CycleEvents(i, own, borrowed, cycles[0].ateAt, timeToEat, timeToSleep) + FlagCheck(flags[0])
         + Rounds(i, own, borrowed, cycles[1..], flags[1..], timeToEat, timeToSleep)
  }

  /** The lines printed by the completed cycles. */
  function RoundsLines(p: Philosopher, start: U64, cycles: seq<Cycle>): seq<Line>
  {
    if cycles == [] then [] else CycleLines(p, start, cycles[0]) + RoundsLines(p, start, cycles[1..])
  }

  lemma RoundsSnoc(i: nat, own: nat, borrowed: nat, cycles: seq<Cycle>, flags: seq<nat>, c: Cycle, flag: nat,
                   timeToEat: U64, timeToSleep: U64)
    requires |cycles| == |flags|
    ensures Rounds(i, own, borrowed, cycles + [c], flags + [flag], timeToEat, timeToSleep)
            == Rounds(i, own, borrowed, cycles, flags, timeToEat, timeToSleep)
               + CycleEvents(i, own, borrowed, c.ateAt, timeToEat, timeToSleep) + FlagCheck(flag)
    decreases |cycles|
  {
    if cycles == [] {
      assert ([c])[1..] == [] && ([flag])[1..] == [];
    } else {
      assert (cycles + [c])[1..] == cycles[1..] + [c];
      assert (flags + [flag])[1..] == flags[1..] + [flag];
      RoundsSnoc(i, own, borrowed, cycles[1..], flags[1..], c, flag, timeToEat, timeToSleep);
    }
  }

  lemma RoundsLinesSnoc(p: Philosopher, start: U64, cycles: seq<Cycle>, c: Cycle)
    ensures RoundsLines(p, start, cycles + [c]) == RoundsLines(p, start, cycles) + CycleLines(p, start, c)
    decreases |cycles|
  {
    if cycles == [] {
      assert ([c])[1..] == [];
    } else {
      assert (cycles + [c])[1..] == cycles[1..] + [c];
      RoundsLinesSnoc(p, start, cycles[1..], c);
    }
  }

  lemma HeldFlagCheck(held: set<Mutex>, flag: nat)
    ensures Held(held, FlagCheck(flag)) == held - {Dying}
  {
    var e := FlagCheck(flag);
    HeldCons(held, e[0], e[1..]);
    HeldCons(held + {Dying}, e[1], e[2..]);
    HeldCons(held + {Dying}, e[2], []);
  }

  /** Whatever was held before, no fork, meal_update or dying lock is held after the rounds. */
  lemma {:induction false} RoundsHeld(held: set<Mutex>, i: nat, own: nat, borrowed: nat, cycles: seq<Cycle>,
                                      flags: seq<nat>, timeToEat: U64, timeToSleep: U64)
    requires |cycles| == |flags|
    ensures Held(held, Rounds(i, own, borrowed, cycles, flags, timeToEat, timeToSleep))
            == if cycles == [] then held else held - {Fork(own), Fork(borrowed), MealUpdate(i), Dying}
    decreases |cycles|
  {
    if cycles != [] {
      var cycle := CycleEvents(i, own, borrowed, cycles[0].ateAt, timeToEat, timeToSleep);
      var rest := Rounds(i, own, borrowed, cycles[1..], flags[1..], timeToEat, timeToSleep);
      var after := held - {Fork(own), Fork(borrowed), MealUpdate(i)} - {Dying};
      CycleHeld(held, i, own, borrowed, cycles[0].ateAt, timeToEat, timeToSleep);
      HeldFlagCheck(held - {Fork(own), Fork(borrowed), MealUpdate(i)}, flags[0]);
      HeldAppend(held, cycle, FlagCheck(flags[0]));
      HeldAppend(held, cycle + FlagCheck(flags[0]), rest);
      RoundsHeld(after, i, own, borrowed, cycles[1..], flags[1..], timeToEat, timeToSleep);
    }
  }

  /** The flag is read exactly once per completed cycle, and the values read are the oracle's. */
  lemma {:induction false} RoundsFlags(i: nat, own: nat, borrowed: nat, cycles: seq<Cycle>, flags: seq<nat>,
                                       timeToEat: U64, timeToSleep: U64)
    requires |cycles| == |flags|
    ensures FlagsRead(Rounds(i, own, borrowed, cycles, flags, timeToEat, timeToSleep)) == flags
    decreases |cycles|
  {
    if cycles != [] {
      var cycle := CycleEvents(i, own, borrowed, cycles[0].ateAt, timeToEat, timeToSleep);
      var rest := Rounds(i, own, borrowed, cycles[1..], flags[1..], timeToEat, timeToSleep);
      CycleFlags(i, own, borrowed, cycles[0].ateAt, timeToEat, timeToSleep);
      FlagsReadAppend(cycle, FlagCheck(flags[0]));
      FlagsReadAppend(cycle + FlagCheck(flags[0]), rest);
      RoundsFlags(i, own, borrowed, cycles[1..], flags[1..], timeToEat, timeToSleep);
      var e := FlagCheck(flags[0]);
      assert e == [e[0]] + [e[1]] + [e[2]];
      FlagsReadAppend([e[0]] + [e[1]], [e[2]]);
      FlagsReadAppend([e[0]], [e[1]]);
      assert flags == [flags[0]] + flags[1..];
    }
  }

  lemma CycleFlags(i: nat, own: nat, borrowed: nat, ateAt: U64, timeToEat: U64, timeToSleep: U64)
    ensures FlagsRead(CycleEvents(i, own, borrowed, ateAt, timeToEat, timeToSleep)) == []
  {
    var e := CycleEvents(i, own, borrowed, ateAt, timeToEat, timeToSleep);
    NoFlagsRead(e);
  }

  lemma {:induction false} NoFlagsRead(e: seq<Event>)
    requires forall k :: 0 <= k < |e| ==> !e[k].ReadFlag?
    ensures FlagsRead(e) == []
    decreases |e|
  {
    if e != [] {
      NoFlagsRead(e[1..]);
    }
  }

  /** The record after the completed cycles: the last meal time, one more meal per cycle. */
  function AfterMeals(p: Philosopher, cycles: seq<Cycle>): (q: Philosopher)
    ensures q.mealCount == p.mealCount + |cycles|
    ensures cycles != [] ==> q.timeLastAte == cycles[|cycles| - 1].ateAt
    ensures cycles == [] ==> q == p
    ensures q.forkOwn == p.forkOwn && q.forkBorrowed == p.forkBorrowed && q.index == p.index
  {
    if cycles == [] then p else p.(timeLastAte := cycles[|cycles| - 1].ateAt, mealCount := p.mealCount + |cycles|)
  }

  lemma AfterMealsSnoc(p: Philosopher, cycles: seq<Cycle>, c: Cycle)
    ensures AfterMeals(p, cycles + [c]) == AfterMeal(AfterMeals(p, cycles), c.ateAt)
  {
  }

  /** The first non-zero flag of the oracle; |flags| when every flag is zero. */
  function FirstRaised(flags: seq<nat>): (k: nat)
    ensures k <= |flags|
    ensures forall j :: 0 <= j < k ==> flags[j] == 0
    ensures k < |flags| ==> flags[k] != 0
  {
    if flags == [] then 0 else if flags[0] != 0 then 0 else FirstRaised(flags[1..]) + 1
  }

  /** A zero flag before the first raised one moves the first raised one past it. */
  lemma FirstRaisedPast(flags: seq<nat>, k: nat)
    requires k < |flags| && k <= FirstRaised(flags) && flags[k] == 0
    ensures k < FirstRaised(flags)
  {
  }

  /**
    The while (1) loop of philosopher_routine: eat_sleep_think cycles on the
    oracle readings `cycles`, each followed by a read of someone_dead (oracle
    `flags`), until the first non-zero flag. With a single philosopher the
    first call returns SINGLE_PHILO_CASE, "has taken a fork" is printed (stamp
    `single`) and the loop ends. `completed` is the number of cycles run.
   */
  method Dine(party: Party, i: nat, cycles: seq<Cycle>, flags: seq<nat>, single: Stamp)
    returns (completed: nat, events: seq<Event>, lines: seq<Line>)
    requires party.Allocated() && i < party.numberOfPhilosophers
    requires |cycles| == |flags|
    requires CyclesEnd(cycles, party.timeToEat, party.timeToSleep)
    requires party.numberOfPhilosophers != 1 ==> FirstRaised(flags) < |flags|
    modifies party`philosophers
    ensures party.numberOfPhilosophers == 1 ==>
              && completed == 0
              && events == [Say(TakenFork)]
              && lines == Print(single, party.partyStartTime, old(party.philosophers[i]), TakenFork)
              && party.philosophers == old(party.philosophers)
    ensures party.numberOfPhilosophers != 1 ==>
              var p := old(party.philosophers[i]);
              && completed == FirstRaised(flags) + 1
              && events == Rounds(i, p.forkOwn, p.forkBorrowed, cycles[..completed], flags[..completed],
                                  party.timeToEat, party.timeToSleep)
              && lines == RoundsLines(p, party.partyStartTime, cycles[..completed])
              && party.philosophers == old(party.philosophers)[i := AfterMeals(p, cycles[..completed])]
  {
    var p := party.philosophers[i];
    var start := party.partyStartTime;
    events, lines := [], [];
    completed := 0;
    while true
      invariant completed <= |flags|
      invariant party.philosophers == old(party.philosophers)[i := AfterMeals(p, cycles[..completed])]
      invariant completed <= FirstRaised(flags)
      invariant party.numberOfPhilosophers == 1 ==> completed == 0
      invariant events == Rounds(i, p.forkOwn, p.forkBorrowed, cycles[..completed], flags[..completed],
                                 party.timeToEat, party.timeToSleep)
      invariant lines == RoundsLines(p, start, cycles[..completed])
      decreases |flags| - completed
    {
      var r;
      r, events, lines := DineRound(party, i, p, start, cycles, flags, completed, events, lines, old(party.philosophers));
      if r == SinglePhiloCase {
        lines := Print(single, start, p, TakenFork);
        events := [Say(TakenFork)];
        return;
      }
      completed := completed + 1;
      if flags[completed - 1] != 0 {
        return;
      }
      FirstRaisedPast(flags, completed - 1);
    }
  }

  /**
    One pass of the loop of philosopher_routine after the first `completed`
    cycles: eat_sleep_think on the next cycle, then the read of someone_dead.
    The trace and the printed lines so far are extended by that pass.
   */
  method DineRound(party: Party, i: nat, p: Philosopher, start: U64, cycles: seq<Cycle>, flags: seq<nat>,
                   completed: nat, events: seq<Event>, lines: seq<Line>, ghost before: seq<Philosopher>)
    returns (r: ReturnValue, events': seq<Event>, lines': seq<Line>)
    requires party.Allocated() && i < party.numberOfPhilosophers
    requires |cycles| == |flags| && completed <= |flags| && start == party.partyStartTime
    requires party.numberOfPhilosophers != 1 ==> completed < |flags|
    requires CyclesEnd(cycles, party.timeToEat, party.timeToSleep)
    requires |before| == party.numberOfPhilosophers
    requires party.philosophers == before[i := AfterMeals(p, cycles[..completed])]
    requires events == Rounds(i, p.forkOwn, p.forkBorrowed, cycles[..completed], flags[..completed],
                              party.timeToEat, party.timeToSleep)
    requires lines == RoundsLines(p, start, cycles[..completed])
    modifies party`philosophers
    ensures party.numberOfPhilosophers == 1 ==> r == SinglePhiloCase && party.philosophers == old(party.philosophers)
    ensures party.numberOfPhilosophers != 1 ==>
              && r != SinglePhiloCase
              && party.philosophers == before[i := AfterMeals(p, cycles[..completed + 1])]
              && events' == Rounds(i, p.forkOwn, p.forkBorrowed, cycles[..completed + 1], flags[..completed + 1],
                                   party.timeToEat, party.timeToSleep)
              && lines' == RoundsLines(p, start, cycles[..completed + 1])
  {
    var cycle := if completed < |cycles| then cycles[completed] else Skipped;
    if completed < |cycles| {
      CyclesEndAt(cycles, completed, party.timeToEat, party.timeToSleep);
    }
    var cycleEvents, cycleLines;
    r, cycleEvents, cycleLines := EatSleepThink(party, i, cycle);
    events', lines' := events, lines;
    if r == SinglePhiloCase {
      return;
    }
    var someoneDead := flags[completed];
    var done, doneFlags := cycles[..completed], flags[..completed];
    CycleLinesByIndex(p, AfterMeals(p, done), start, cycle);
    RoundsSnoc(i, p.forkOwn, p.forkBorrowed, done, doneFlags, cycle, someoneDead, party.timeToEat, party.timeToSleep);
    RoundsLinesSnoc(p, start, done, cycle);
    AfterMealsSnoc(p, done, cycle);
    assert cycles[..completed + 1] == done + [cycle];
    assert flags[..completed + 1] == doneFlags + [someoneDead];
    events' := events + cycleEvents + FlagCheck(someoneDead);
    lines' := lines + cycleLines;
  }

  /**
    philosopher_routine for philosopher i: through the guard gate, "is
    thinking" (stamp `gate`), the even-index stagger (oracle `stagger`), then
    the loop of Dine.
   */
  method PhilosopherRoutine(party: Party, i: nat, gate: Stamp, stagger: Nap, cycles: seq<Cycle>, flags: seq<nat>,
                            single: Stamp)
    returns (completed: nat, events: seq<Event>, lines: seq<Line>)
    requires party.Allocated() && i < party.numberOfPhilosophers
    requires party.philosophers[i].index % 2 == 0 ==> NapEnds(party.timeToEat / 10, stagger)
    requires |cycles| == |flags|
    requires CyclesEnd(cycles, party.timeToEat, party.timeToSleep)
    requires party.numberOfPhilosophers != 1 ==> FirstRaised(flags) < |flags|
    modifies party`philosophers
    ensures var p := old(party.philosophers[i]);
            var start := party.partyStartTime;
            var prologue := Prologue(p.index, party.timeToEat);
            var thinking := Print(gate, start, p, Thinking);
            if party.numberOfPhilosophers == 1 then
              && completed == 0
              && events == prologue + [Say(TakenFork)]
              && lines == thinking + Print(single, start, p, TakenFork)
              && party.philosophers == old(party.philosophers)
            else
              && completed == FirstRaised(flags) + 1
              && events == prologue + Rounds(i, p.forkOwn, p.forkBorrowed, cycles[..completed], flags[..completed],
                                             party.timeToEat, party.timeToSleep)
              && lines == thinking + RoundsLines(p, start, cycles[..completed])
              && party.philosophers == old(party.philosophers)[i := AfterMeals(p, cycles[..completed])]
  {
    var p := party.philosophers[i];
    var start := party.partyStartTime;
    events := [Acquire(Guard), Release(Guard)];
    lines := Print(gate, start, p, Thinking);
    events := events + [Say(Thinking)];
    if p.index % 2 == 0 {
      var _, _ := CustomUsleep(party.timeToEat / 10, stagger);
      events := events + [Sleep(party.timeToEat / 10)];
    }
    assert events == Prologue(p.index, party.timeToEat);
    var loopEvents, loopLines;
    completed, loopEvents, loopLines := Dine(party, i, cycles, flags, single);
    events := events + loopEvents;
    lines := lines + loopLines;
  }

  lemma HeldPrologue(held: set<Mutex>, index: nat, timeToEat: U64)
    ensures Held(held, Prologue(index, timeToEat)) == held - {Guard}
  {
    var gate: seq<Event> := [Acquire(Guard), Release(Guard), Say(Thinking)];
    var stagger: seq<Event> := if index % 2 == 0 then [Sleep(timeToEat / 10)] else [];
    HeldCons(held, Acquire(Guard), gate[1..]);
    HeldCons(held + {Guard}, Release(Guard), gate[2..]);
    HeldCons(held + {Guard} - {Guard}, Say(Thinking), []);
    HeldAppend(held, gate, stagger);
    if index % 2 == 0 {
      HeldCons(held - {Guard}, Sleep(timeToEat / 10), []);
    }
  }

  /**
    Whichever way philosopher_routine ends, the philosopher holds no mutex:
    every lock it takes is released before it returns.
   */
  lemma RoutineReleasesAll(index: nat, i: nat, own: nat, borrowed: nat, cycles: seq<Cycle>, flags: seq<nat>,
                           timeToEat: U64, timeToSleep: U64)
    requires |cycles| == |flags|
    ensures Held({}, Prologue(index, timeToEat) + [Say(TakenFork)]) == {}
    ensures Held({}, Prologue(index, timeToEat) + Rounds(i, own, borrowed, cycles, flags, timeToEat, timeToSleep)) == {}
  {
    HeldPrologue({}, index, timeToEat);
    HeldAppend({}, Prologue(index, timeToEat), [Say(TakenFork)]);
    HeldCons({}, Say(TakenFork), []);
    HeldAppend({}, Prologue(index, timeToEat), Rounds(i, own, borrowed, cycles, flags, timeToEat, timeToSleep));
    RoundsHeld({}, i, own, borrowed, cycles, flags, timeToEat, timeToSleep);
  }
}
