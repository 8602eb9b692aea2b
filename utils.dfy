/**
  Clock arithmetic, the gated event printer and the interruptible sleep
  (philo/utils.c). The clock and the termination flag are read through
  oracle values: a reading of gettimeofday, or the value of someone_dead
  seen under the dying lock.
 */
module Utils {
  import opened Defs

  const MicrosPerSecond := 1000000
  const MicrosPerMilli := 1000

  /** get_current_time: a gettimeofday reading (seconds, microseconds) in microseconds. */
  function GetCurrentTime(sec: U64, usec: nat): (t: U64)
    requires usec < MicrosPerSecond
    ensures sec * MicrosPerSecond + usec < U64Modulus ==> t == sec * MicrosPerSecond + usec
    ensures sec < U64Modulus / MicrosPerSecond ==> t / MicrosPerSecond == sec && t % MicrosPerSecond == usec
  {
    (sec * MicrosPerSecond + usec) % U64Modulus
  }

  /** The timestamp printed for a clock reading: whole milliseconds since the start. */
  function Timestamp(now: U64, start: U64): (ms: U64)
    ensures start <= now ==> ms * MicrosPerMilli <= now - start < ms * MicrosPerMilli + MicrosPerMilli
  {
    Sub64(now, start) / MicrosPerMilli
  }

  /** Later readings never print an earlier timestamp, as long as the clock has not wrapped. */
  lemma TimestampMonotone(start: U64, t1: U64, t2: U64)
    requires start <= t1 <= t2
    ensures Timestamp(t1, start) <= Timestamp(t2, start)
  {
  }

  /**
    print_whats_happening: under the dying lock the clock is read and a line
    is printed only when the flag read there is zero.
   */
  function PrintWhatsHappening(now: U64, start: U64, philosopher: Philosopher, someoneDead: nat,
                               message: Message): (out: seq<Line>)
    ensures |out| <= 1
    ensures out != [] <==> someoneDead == 0
    ensures out != [] ==> out[0].number == philosopher.index + 1 && out[0].message == message
    ensures out != [] ==> out[0].timestamp == Timestamp(now, start)
  {
    if someoneDead == 0 then [Line(Timestamp(now, start), philosopher.index + 1, message)] else []
  }

  /** The clock and flag readings one print_whats_happening call takes. */
  datatype Stamp = Stamp(now: U64, flag: nat)

  function Print(stamp: Stamp, start: U64, philosopher: Philosopher, message: Message): seq<Line>
  {
    PrintWhatsHappening(stamp.now, start, philosopher, stamp.flag, message)
  }

  /**
    The readings one custom_usleep call takes: the clock at the start, then
    per poll a clock reading and, when the time is not yet up, a flag reading.
   */
  datatype Poll = Poll(now: U64, flag: nat)
  datatype Nap = Nap(start: U64, polls: seq<Poll>)

  predicate TimeIsUp(duration: U64, start: U64, p: Poll)
  {
    Sub64(p.now, start) >= duration
  }

  predicate PollEnds(duration: U64, start: U64, p: Poll)
  {
    TimeIsUp(duration, start, p) || p.flag != 0
  }

  /** The oracle holds a poll at which the sleep returns. */
  predicate NapEnds(duration: U64, nap: Nap)
  {
    exists j :: 0 <= j < |nap.polls| && PollEnds(duration, nap.start, nap.polls[j])
  }

  /**
    custom_usleep: polls until the elapsed (unsigned) time reaches the
    duration or the flag is seen non-zero. `last` is the poll that ends it,
    `flagReads` how many times the flag was read.
   */
  method CustomUsleep(duration: U64, nap: Nap) returns (last: nat, flagReads: nat)
    requires NapEnds(duration, nap)
    ensures last < |nap.polls| && PollEnds(duration, nap.start, nap.polls[last])
    ensures forall j :: 0 <= j < last ==>
              !TimeIsUp(duration, nap.start, nap.polls[j]) && nap.polls[j].flag == 0
    ensures flagReads == if TimeIsUp(duration, nap.start, nap.polls[last]) then last else last + 1
    ensures duration == 0 ==> last == 0 && flagReads == 0
  {
    last := 0;
    while Sub64(nap.polls[last].now, nap.start) < duration
      invariant last < |nap.polls|
      invariant forall j :: 0 <= j < last ==> !PollEnds(duration, nap.start, nap.polls[j])
      invariant exists j :: last <= j < |nap.polls| && PollEnds(duration, nap.start, nap.polls[j])
      invariant duration == 0 ==> last == 0
      decreases |nap.polls| - last
    {
      if nap.polls[last].flag != 0 {
        flagReads := last + 1;
        return;
      }
      last := last + 1;
    }
    flagReads := last;
  }
}
