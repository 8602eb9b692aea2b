/**
  The monitor (philo/monitoring_routine.c): scans for a starving philosopher,
  then for everyone having eaten enough, and raises someone_dead on either.
  The clock is re-read for every philosopher; a scan's readings, in the order
  they are taken, are its `clock` oracle.
 */
module Monitoring {
  import opened Defs
  import opened Utils

  /** The test of someone_starved, on unsigned 64-bit time. */
  predicate Starving(now: U64, lastAte: U64, timeToDie: U64)
  {
    Sub64(now, lastAte) >= timeToDie
  }

  /**
    A last meal stamped later than the clock reading (the philosopher took its
    own reading after the monitor) wraps to a huge difference and counts as
    starving, for any death time parse_args can produce.
   */
  lemma LateMealCountsAsStarving(now: U64, lastAte: U64, timeToDie: U64)
    requires now < lastAte && lastAte - now <= U64Modulus / 2
    requires timeToDie <= MaxTimeValue * 1000
    ensures Starving(now, lastAte, timeToDie)
  {
  }

  /** Philosopher i starves at the i-th clock reading of a scan. */
  predicate StarvesAt(party: Party, clock: seq<U64>, i: nat)
    reads party`philosophers, party`timeToDie
    requires i < |party.philosophers| && i < |clock|
  {
    Starving(clock[i], party.philosophers[i].timeLastAte, party.timeToDie)
  }

  /** A scan has a reading for every philosopher and one more for the death message. */
  predicate ScanFits(party: Party, clock: seq<U64>)
    reads party`philosophers, party`numberOfPhilosophers, party`timeToDie
  {
    party.Allocated() && |clock| > party.numberOfPhilosophers
  }

  /** The first philosopher, from i on, found starving; N when there is none. */
  function FirstStarvingFrom(party: Party, clock: seq<U64>, i: nat): (v: nat)
    reads party`philosophers, party`numberOfPhilosophers, party`timeToDie
    requires ScanFits(party, clock) && i <= party.numberOfPhilosophers
    ensures i <= v <= party.numberOfPhilosophers
    ensures forall j :: i <= j < v ==> !StarvesAt(party, clock, j)
    ensures v < party.numberOfPhilosophers ==> StarvesAt(party, clock, v)
    decreases party.numberOfPhilosophers - i
  {
    if i == party.numberOfPhilosophers || StarvesAt(party, clock, i) then i
    else FirstStarvingFrom(party, clock, i + 1)
  }

  function FirstStarving(party: Party, clock: seq<U64>): nat
    reads party`philosophers, party`numberOfPhilosophers, party`timeToDie
    requires ScanFits(party, clock)
  {
    FirstStarvingFrom(party, clock, 0)
  }

  /** The death message of a scan: printed only when the flag is still zero. */
  function DeathLines(party: Party, clock: seq<U64>): seq<Line>
    reads party
    requires ScanFits(party, clock)
  {
    var v := FirstStarving(party, clock);
    if v < party.numberOfPhilosophers
    then PrintWhatsHappening(clock[v + 1], party.partyStartTime, party.philosophers[v], party.someoneDead, Died)
    else []
  }

  /** The satisfaction condition of everyone_is_fed. */
  predicate AllFed(party: Party)
    reads party`philosophers, party`numberOfPhilosophers, party`numberOfMeals
    requires party.Allocated()
  {
    party.numberOfMeals >= 0 &&
    forall j :: 0 <= j < party.numberOfPhilosophers ==> party.philosophers[j].mealCount >= party.numberOfMeals
  }

  /** A monitor iteration ends the party: someone starves or everyone is fed. */
  predicate Terminal(party: Party, clock: seq<U64>)
    reads party`philosophers, party`numberOfPhilosophers, party`timeToDie, party`numberOfMeals
    requires ScanFits(party, clock)
  {
    FirstStarving(party, clock) < party.numberOfPhilosophers || AllFed(party)
  }

  /**
    someone_starved: scans in ascending order, reading the clock afresh for
    each philosopher, and stops at the first one whose unsigned time since its
    last meal reaches time_to_die; only that one gets a "died" message.
   */
  method SomeoneStarved(party: Party, clock: seq<U64>) returns (r: ReturnValue, victim: nat, printed: seq<Line>)
    requires ScanFits(party, clock)
    ensures r == SomeoneDied || r == LifeGoesOn
    ensures r == SomeoneDied <==> exists j :: 0 <= j < party.numberOfPhilosophers && StarvesAt(party, clock, j)
    ensures victim <= party.numberOfPhilosophers
    ensures r == SomeoneDied <==> victim < party.numberOfPhilosophers
    ensures forall j :: 0 <= j < victim ==> !StarvesAt(party, clock, j)
    ensures victim < party.numberOfPhilosophers ==> StarvesAt(party, clock, victim)
    ensures printed == DeathLines(party, clock)
  {
    var i := 0;
    while i < party.numberOfPhilosophers
      invariant i <= party.numberOfPhilosophers
      invariant forall j :: 0 <= j < i ==> !StarvesAt(party, clock, j)
    {
      var currTime := clock[i];
      var timePhiloLastAte := party.philosophers[i].timeLastAte;
      if Sub64(currTime, timePhiloLastAte) >= party.timeToDie {
        assert FirstStarvingFrom(party, clock, 0) == i by { FirstIsLeast(party, clock, i); }
        printed := PrintWhatsHappening(clock[i + 1], party.partyStartTime, party.philosophers[i],
                                       party.someoneDead, Died);
        return SomeoneDied, i, printed;
      }
      i := i + 1;
    }
    FirstIsLeast(party, clock, i);
    return LifeGoesOn, i, [];
  }

  /** The first starving philosopher is the one at which no earlier one starves. */
  lemma FirstIsLeast(party: Party, clock: seq<U64>, i: nat)
    requires ScanFits(party, clock) && i <= party.numberOfPhilosophers
    requires forall j :: 0 <= j < i ==> !StarvesAt(party, clock, j)
    requires i < party.numberOfPhilosophers ==> StarvesAt(party, clock, i)
    ensures FirstStarving(party, clock) == i
  {
  }

  /**
    everyone_is_fed: with no meal count configured (negative) nobody is read;
    otherwise the meal counts are read in ascending order up to the first one
    below the required count. `read` is how many were read.
   */
  method EveryoneIsFed(party: Party) returns (r: ReturnValue, read: nat)
    requires party.Allocated()
    ensures r == ReturnValue.EveryoneIsFed || r == LifeGoesOn
    ensures r == ReturnValue.EveryoneIsFed <==> AllFed(party)
    ensures party.numberOfMeals < 0 ==> read == 0
    ensures read <= party.numberOfPhilosophers
    ensures forall j :: 0 <= j < read - 1 ==> party.philosophers[j].mealCount >= party.numberOfMeals
    ensures r == LifeGoesOn && party.numberOfMeals >= 0 ==>
              0 < read && party.philosophers[read - 1].mealCount < party.numberOfMeals
  {
    if party.numberOfMeals < 0 {
      return LifeGoesOn, 0;
    }
    var i := 0;
    while i < party.numberOfPhilosophers
      invariant i <= party.numberOfPhilosophers
      invariant forall j :: 0 <= j < i ==> party.philosophers[j].mealCount >= party.numberOfMeals
    {
      var philoMealCount := party.philosophers[i].mealCount;
      if philoMealCount < party.numberOfMeals {
        return LifeGoesOn, i + 1;
      }
      i := i + 1;
    }
    return ReturnValue.EveryoneIsFed, i;
  }

  /**
    One iteration of monitoring_routine: starvation is checked first and
    satisfaction only when nobody starved; either one sets someone_dead to 1
    and ends the loop. The death message is printed before the flag is set.
    Nothing but the flag is written.
   */
  method MonitorStep(party: Party, clock: seq<U64>) returns (stop: bool, printed: seq<Line>)
    requires ScanFits(party, clock)
    modifies party`someoneDead
    ensures party.philosophers == old(party.philosophers)
    ensures stop <==> Terminal(party, clock)
    ensures party.someoneDead == if stop then 1 else old(party.someoneDead)
    ensures printed == old(DeathLines(party, clock))
    ensures old(party.someoneDead) == 0 && FirstStarving(party, clock) < party.numberOfPhilosophers ==>
              |printed| == 1 && printed[0].message == Died
  {
    var starved, victim;
    starved, victim, printed := SomeoneStarved(party, clock);
    if starved == SomeoneDied {
      party.someoneDead := 1;
      return true, printed;
    }
    var fed, _ := EveryoneIsFed(party);
    if fed == ReturnValue.EveryoneIsFed {
      party.someoneDead := 1;
      return true, printed;
    }
    return false, printed;
  }

  /**
    monitoring_routine: iterations run on the successive scans of `rounds`
    (the 500 µs pause between them is not modelled) until one is terminal;
    `stopAt` is that round, or |rounds| when the rounds run out first.
   */
  method MonitoringRoutine(party: Party, rounds: seq<seq<U64>>) returns (stopAt: nat, printed: seq<Line>)
    requires party.Allocated()
    requires forall k :: 0 <= k < |rounds| ==> |rounds[k]| > party.numberOfPhilosophers
    modifies party`someoneDead
    ensures party.philosophers == old(party.philosophers)
    ensures stopAt <= |rounds|
    ensures forall k :: 0 <= k < stopAt ==> !Terminal(party, rounds[k])
    ensures stopAt < |rounds| ==> Terminal(party, rounds[stopAt]) && party.someoneDead == 1
    ensures stopAt == |rounds| ==> party.someoneDead == old(party.someoneDead) && printed == []
    ensures stopAt < |rounds| ==> printed == old(DeathLines(party, rounds[stopAt]))
    ensures stopAt < |rounds| && old(party.someoneDead) == 0 && FirstStarving(party, rounds[stopAt]) < party.numberOfPhilosophers ==>
              |printed| == 1 && printed[0].message == Died
    ensures old(party.someoneDead) != 0 ==> party.someoneDead != 0
  {
    stopAt := 0;
    printed := [];
    while stopAt < |rounds|
      invariant stopAt <= |rounds|
      invariant party.someoneDead == old(party.someoneDead) && printed == []
      invariant forall k :: 0 <= k < stopAt ==> !Terminal(party, rounds[k])
    {
      var stop;
      stop, printed := MonitorStep(party, rounds[stopAt]);
      if stop {
        return;
      }
      stopAt := stopAt + 1;
    }
  }
}
