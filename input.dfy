/**
  Command-line parsing and validation (philo/input.c). Arguments are strings
  read as C strings: the character past the end, or an embedded NUL, is the
  terminator.
 */
module Input {
  import opened Defs

  predicate IsDigit(c: char)
  {
    '0' <= c <= '9'
  }

  /** The character a C string pointer sees at offset i. */
  function CharAt(s: string, i: nat): char
  {
    if i < |s| then s[i] else '\0'
  }

  function DigitValue(c: char): nat
    requires IsDigit(c)
  {
    c as int - '0' as int
  }

  predicate AllDigits(s: string)
  {
    forall i :: 0 <= i < |s| ==> IsDigit(s[i])
  }

  /** The decimal value of a string of digits, most significant first. */
  function DecimalValue(s: string): nat
    requires AllDigits(s)
  {
    if s == [] then 0 else DecimalValue(s[..|s| - 1]) * 10 + DigitValue(s[|s| - 1])
  }

  /** The length of the run of digits the string starts with. */
  function DigitRun(s: string): (k: nat)
    ensures k <= |s| && AllDigits(s[..k]) && !IsDigit(CharAt(s, k))
  {
    if s == [] || !IsDigit(s[0]) then 0
    else
      var k := 1 + DigitRun(s[1..]);
      assert s[..k] == [s[0]] + s[1..][..k - 1];
      k
  }

  /**
    What ascii_to_positive_int returns: the value of the leading digits when
    they reach the terminator and the value does not exceed MaxTimeValue,
    otherwise 0.
   */
  function ParsedNumber(s: string): (v: nat)
    ensures v <= MaxTimeValue
  {
    var k := DigitRun(s);
    if CharAt(s, k) == '\0' && DecimalValue(s[..k]) <= MaxTimeValue then DecimalValue(s[..k]) else 0
  }

  /** A prefix of digits fixes where the digit run can end. */
  lemma {:induction false} DigitRunFrom(s: string, i: nat)
    requires i <= |s| && AllDigits(s[..i])
    ensures DigitRun(s) >= i
    ensures !IsDigit(CharAt(s, i)) ==> DigitRun(s) == i
  {
    if i > 0 {
      assert IsDigit(s[..i][0]);
      assert s[1..][..i - 1] == s[..i][1..];
      DigitRunFrom(s[1..], i - 1);
    }
  }

  /** Appending digits never lowers the value. */
  lemma {:induction false} DecimalValueGrows(s: string, i: nat)
    requires AllDigits(s) && i <= |s|
    ensures DecimalValue(s[..i]) <= DecimalValue(s)
  {
    if i < |s| {
      var init := s[..|s| - 1];
      assert init[..i] == s[..i];
      DecimalValueGrows(init, i);
      assert DecimalValue(s) == DecimalValue(init) * 10 + DigitValue(s[|s| - 1]);
    } else {
      assert s[..i] == s;
    }
  }

  /** One step of the accumulation `result * 10 + *str - '0'` stays far below 2^64. */
  lemma AccumulatorFits(v: U64, c: char)
    requires v <= MaxTimeValue && IsDigit(c)
    ensures v * 10 + DigitValue(c) <= MaxTimeValue * 10 + 9 < U64Modulus
    ensures Add64(Mul64(v, 10), DigitValue(c)) == v * 10 + DigitValue(c)
  {
  }

  /**
    ascii_to_positive_int: walks the digits, accumulating in unsigned 64-bit
    arithmetic, gives up with 0 as soon as the value exceeds MaxTimeValue,
    and returns 0 unless the digits end at the terminator.
   */
  method AsciiToPositiveInt(s: string) returns (result: U64)
    ensures result == ParsedNumber(s)
  {
    result := 0;
    var i := 0;
    while IsDigit(CharAt(s, i))
      invariant i <= |s| && AllDigits(s[..i])
      invariant result == DecimalValue(s[..i]) <= MaxTimeValue
      decreases |s| - i
    {
      AccumulatorFits(result, s[i]);
      result := Add64(Mul64(result, 10), DigitValue(s[i]));
      assert s[..i + 1][..i] == s[..i];
      if result > MaxTimeValue {
        DigitRunFrom(s, i + 1);
        var k := DigitRun(s);
        assert s[..k][..i + 1] == s[..i + 1];
        DecimalValueGrows(s[..k], i + 1);
        return 0;
      }
      i := i + 1;
    }
    DigitRunFrom(s, i);
    if CharAt(s, i) != '\0' {
      return 0;
    }
  }

  /** A string of digits within range parses to its value; leading zeros are allowed. */
  lemma DigitStringParses(s: string)
    requires AllDigits(s) && DecimalValue(s) <= MaxTimeValue
    ensures ParsedNumber(s) == DecimalValue(s)
  {
    assert s[..|s|] == s;
    DigitRunFrom(s, |s|);
  }

  lemma {:induction false} LeadingZeroValue(s: string)
    requires AllDigits(s)
    ensures AllDigits(['0'] + s) && DecimalValue(['0'] + s) == DecimalValue(s)
  {
    if s != [] {
      var t := ['0'] + s;
      assert t[..|t| - 1] == ['0'] + s[..|s| - 1];
      LeadingZeroValue(s[..|s| - 1]);
    }
  }

  /** A leading zero never changes what a string parses to. */
  lemma LeadingZeroIgnored(s: string)
    ensures ParsedNumber(['0'] + s) == ParsedNumber(s)
  {
    var t := ['0'] + s;
    var k := DigitRun(s);
    assert t[..k + 1] == ['0'] + s[..k];
    DigitRunFrom(t, k + 1);
    LeadingZeroValue(s[..k]);
  }

  /** The empty string, a leading sign, or any other non-digit before the terminator gives 0. */
  lemma NonDigitRejected(s: string, j: nat)
    requires j < |s| && !IsDigit(s[j]) && s[j] != '\0'
    requires forall i :: 0 <= i < j ==> s[i] != '\0'
    ensures ParsedNumber(s) == 0
  {
  }

  lemma EmptyRejected()
    ensures ParsedNumber("") == 0
  {
  }

  /** A value above MaxTimeValue is rejected with 0, however it is written. */
  lemma OverflowRejected(s: string)
    requires AllDigits(s) && DecimalValue(s) > MaxTimeValue
    ensures ParsedNumber(s) == 0
  {
    assert s[..|s|] == s;
    DigitRunFrom(s, |s|);
  }

  /** Whether store_arg_if_validated accepts `s` as argument number `argument`. */
  predicate Accepted(s: string, argument: int)
  {
    ParsedNumber(s) != 0 && (argument == 1 ==> ParsedNumber(s) <= MaxAmountPhiloAllowed)
  }

  /** The code store_arg_if_validated returns for a rejected argument. */
  function RejectCode(s: string): ReturnValue
  {
    if ParsedNumber(s) == 0 then ArgNotNumeric else TooManyPhilos
  }

  /**
    The `(int)` cast of an unsigned 64-bit value: the low 32 bits read as a
    two's-complement int (the conversion gcc and clang perform).
   */
  function IntCast(v: U64): (i: int)
    ensures -IntMax - 1 <= i <= IntMax
    ensures v <= IntMax ==> i == v
    ensures (i - v) % 0x1_0000_0000 == 0
  {
    var low := v % 0x1_0000_0000;
    if low <= IntMax then low else low - 0x1_0000_0000
  }

  /** A meal count just past the range of an int turns negative: the run then has no meal limit. */
  lemma MealCountPastIntMaxWraps(c: Config, s: string)
    requires ParsedNumber(s) == IntMax + 1
    ensures StoreArg(c, s, 5) == (Success, c.(numberOfMeals := -IntMax - 1))
  {
  }

  /**
    store_arg_if_validated on a configuration: the return code and the
    configuration afterwards. Arguments 2 to 4 are milliseconds stored as
    microseconds, which cannot wrap because MaxTimeValue * 1000 < 2^64.
   */
  function StoreArg(c: Config, s: string, argument: int): (r: (ReturnValue, Config))
    ensures r.0 == Success <==> Accepted(s, argument)
    ensures r.0 != Success ==> r.0 == RejectCode(s) && r.1 == c
    ensures r.0 == Success ==> r.1 == match argument
      case 1 => c.(numberOfPhilosophers := ParsedNumber(s))
      case 2 => c.(timeToDie := ParsedNumber(s) * 1000)
      case 3 => c.(timeToEat := ParsedNumber(s) * 1000)
      case 4 => c.(timeToSleep := ParsedNumber(s) * 1000)
      case 5 => c.(numberOfMeals := IntCast(ParsedNumber(s)))
      case _ => c
  {
    var v := ParsedNumber(s);
    if v == 0 then (ArgNotNumeric, c)
    else if argument == 1 then
      if v > MaxAmountPhiloAllowed then (TooManyPhilos, c) else (Success, c.(numberOfPhilosophers := v))
    else if argument == 2 then (Success, c.(timeToDie := Mul64(v, 1000)))
    else if argument == 3 then (Success, c.(timeToEat := Mul64(v, 1000)))
    else if argument == 4 then (Success, c.(timeToSleep := Mul64(v, 1000)))
    else if argument == 5 then (Success, c.(numberOfMeals := IntCast(v)))
    else (Success, c)
  }

  /** The literal "0" is not a positive number: rejected, nothing written. */
  lemma ZeroRejected(c: Config, argument: int)
    ensures StoreArg(c, "0", argument) == (ArgNotNumeric, c)
  {
    assert ParsedNumber("0") == 0 by {
      assert DigitRun("0") == 1 by { DigitRunFrom("0", 1); }
      assert "0"[..1] == "0";
      assert DecimalValue("0") == DecimalValue("0"[..0]) * 10 + 0;
    }
  }

  /** argument_number_check: only 4 or 5 arguments after the program name. */
  function ArgumentNumberCheck(argc: int): (r: ReturnValue)
    ensures r == Success <==> argc == ExpectArgCount || argc == ExpectArgCountWithMeals
    ensures r != Success ==> r == ArgCountError
  {
    if argc == ExpectArgCount || argc == ExpectArgCountWithMeals then Success else ArgCountError
  }

  /** The loop of parse_args from argument `index` on: stores left to right, stops at the first failure. */
  function ParseFrom(c: Config, argv: seq<string>, index: nat): (ReturnValue, Config)
    decreases |argv| - index
  {
    if index >= |argv| then (Success, c)
    else
      var (ret, c') := StoreArg(c, argv[index], index);
      if ret != Success then (ret, c') else ParseFrom(c', argv, index + 1)
  }

  /** parse_args on a configuration; argv[0] is the program name and argc is |argv|. */
  function ParseArgsSpec(c: Config, argv: seq<string>): (ReturnValue, Config)
  {
    if ArgumentNumberCheck(|argv|) == ArgCountError then (ArgCountError, c)
    else ParseFrom(if |argv| == ExpectArgCount then c.(numberOfMeals := -1) else c, argv, 1)
  }

  /** The configuration after the arguments i .. k-1 have been stored. */
  function Assigned(c: Config, argv: seq<string>, i: nat, k: nat): Config
    requires |argv| <= ExpectArgCountWithMeals
  {
    Config(
      if i <= 1 < k && 1 < |argv| then ParsedNumber(argv[1]) else c.numberOfPhilosophers,
      if i <= 2 < k && 2 < |argv| then ParsedNumber(argv[2]) * 1000 else c.timeToDie,
      if i <= 3 < k && 3 < |argv| then ParsedNumber(argv[3]) * 1000 else c.timeToEat,
      if i <= 4 < k && 4 < |argv| then ParsedNumber(argv[4]) * 1000 else c.timeToSleep,
      if i <= 5 < k && 5 < |argv| then IntCast(ParsedNumber(argv[5])) else c.numberOfMeals)
  }

  lemma {:induction false} ParseFromOutcome(c: Config, argv: seq<string>, i: nat, k: nat)
    requires |argv| <= ExpectArgCountWithMeals
    requires 1 <= i <= k <= |argv|
    requires forall j :: i <= j < k ==> Accepted(argv[j], j)
    requires k < |argv| ==> !Accepted(argv[k], k)
    ensures ParseFrom(c, argv, i).0 == if k == |argv| then Success else RejectCode(argv[k])
    ensures ParseFrom(c, argv, i).1 == Assigned(c, argv, i, k)
    decreases k - i
  {
    if i < k {
      var c' := StoreArg(c, argv[i], i).1;
      ParseFromOutcome(c', argv, i + 1, k);
      assert Assigned(c', argv, i + 1, k) == Assigned(c, argv, i, k);
    }
  }

  /**
    With 4 or 5 arguments, arguments are validated left to right: with k the
    first rejected one (or argc if none is), the code is that argument's, the
    fields of the arguments before it are written (ms as µs), the later ones
    keep their old values, and without a fifth argument the meal count is -1.
   */
  lemma ParseArgsOutcome(c: Config, argv: seq<string>, k: nat)
    requires |argv| == ExpectArgCount || |argv| == ExpectArgCountWithMeals
    requires 1 <= k <= |argv|
    requires forall j :: 1 <= j < k ==> Accepted(argv[j], j)
    requires k < |argv| ==> !Accepted(argv[k], k)
    ensures ParseArgsSpec(c, argv).0 == if k == |argv| then Success else RejectCode(argv[k])
    ensures ParseArgsSpec(c, argv).1 ==
      Assigned(if |argv| == ExpectArgCount then c.(numberOfMeals := -1) else c, argv, 1, k)
  {
    ParseFromOutcome(if |argv| == ExpectArgCount then c.(numberOfMeals := -1) else c, argv, 1, k);
  }

  /** Any other argument count is refused before a single field is written. */
  lemma WrongCountRejected(c: Config, argv: seq<string>)
    requires |argv| != ExpectArgCount && |argv| != ExpectArgCountWithMeals
    ensures ParseArgsSpec(c, argv) == (ArgCountError, c)
  {
  }

  lemma {:induction false} ParseFromCodeIgnoresConfig(c1: Config, c2: Config, argv: seq<string>, i: nat)
    ensures ParseFrom(c1, argv, i).0 == ParseFrom(c2, argv, i).0
    decreases |argv| - i
  {
    if i < |argv| {
      ParseFromCodeIgnoresConfig(StoreArg(c1, argv[i], i).1, StoreArg(c2, argv[i], i).1, argv, i + 1);
    }
  }

  /** The return code of parse_args depends on the arguments only, not on what the party held. */
  lemma ParseCodeIgnoresConfig(c1: Config, c2: Config, argv: seq<string>)
    ensures ParseArgsSpec(c1, argv).0 == ParseArgsSpec(c2, argv).0
  {
    if ArgumentNumberCheck(|argv|) == Success {
      ParseFromCodeIgnoresConfig(if |argv| == ExpectArgCount then c1.(numberOfMeals := -1) else c1,
                                 if |argv| == ExpectArgCount then c2.(numberOfMeals := -1) else c2, argv, 1);
    }
  }

  /** store_arg_if_validated, writing the party's fields in place. */
  method StoreArgIfValidated(party: Party, s: string, argument: int) returns (ret: ReturnValue)
    modifies party`numberOfPhilosophers, party`timeToDie, party`timeToEat, party`timeToSleep,
             party`numberOfMeals
    ensures (ret, party.Configuration()) == StoreArg(old(party.Configuration()), s, argument)
  {
    var validated := AsciiToPositiveInt(s);
    if validated == 0 {
      return ArgNotNumeric;
    } else if argument == 1 {
      if validated > MaxAmountPhiloAllowed {
        return TooManyPhilos;
      }
      party.numberOfPhilosophers := validated;
    } else if argument == 2 {
      party.timeToDie := Mul64(validated, 1000);
    } else if argument == 3 {
      party.timeToEat := Mul64(validated, 1000);
    } else if argument == 4 {
      party.timeToSleep := Mul64(validated, 1000);
    } else if argument == 5 {
      party.numberOfMeals := IntCast(validated);
    }
    return Success;
  }

  /** parse_args: checks the count, defaults the meal count, then stores argv[1..] in order. */
  method ParseArgs(party: Party, argv: seq<string>) returns (ret: ReturnValue)
    modifies party`numberOfPhilosophers, party`timeToDie, party`timeToEat, party`timeToSleep,
             party`numberOfMeals
    ensures (ret, party.Configuration()) == ParseArgsSpec(old(party.Configuration()), argv)
  {
    var index := 1;
    ret := ArgumentNumberCheck(|argv|);
    if ret == ArgCountError {
      return ArgCountError;
    }
    if |argv| == ExpectArgCount {
      party.numberOfMeals := -1;
    }
    while index < |argv|
      invariant 1 <= index
      invariant ParseFrom(party.Configuration(), argv, index) == ParseArgsSpec(old(party.Configuration()), argv)
      decreases |argv| - index
    {
      ret := StoreArgIfValidated(party, argv[index], index);
      if ret != Success {
        return ret;
      }
      index := index + 1;
    }
    return Success;
  }
}
