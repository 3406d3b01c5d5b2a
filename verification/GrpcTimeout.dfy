/** The `grpc-timeout` header: printed from milliseconds, parsed to nanoseconds. */
module GrpcTimeout {
  import opened Common

  // ---------------------------------------------------------------- Decimal numbers

  predicate IsDigit(c: char) {
    '0' <= c <= '9'
  }

  function DigitOf(n: nat): char
    requires n < 10
  {
    "0123456789"[n]
  }

  function ValueOf(c: char): nat
    requires IsDigit(c)
  {
    c as int - '0' as int
  }

  function ToDecimal(n: nat): (s: string)
    ensures s != [] && forall k :: 0 <= k < |s| ==> IsDigit(s[k])
  {
    if n < 10 then [DigitOf(n)] else ToDecimal(n / 10) + [DigitOf(n % 10)]
  }

  function FromDecimal(s: string): nat
    requires forall k :: 0 <= k < |s| ==> IsDigit(s[k])
  {
    if s == [] then 0 else FromDecimal(s[..|s| - 1]) * 10 + ValueOf(s[|s| - 1])
  }

  lemma {:induction false} DecimalRoundTrip(n: nat)
    ensures FromDecimal(ToDecimal(n)) == n
    decreases n
  {
    var s := ToDecimal(n);
    if n < 10 {
      assert s[..0] == [];
    } else {
      DecimalRoundTrip(n / 10);
      assert s[..|s| - 1] == ToDecimal(n / 10);
    }
  }

  function PowerOfTen(k: nat): nat {
    if k == 0 then 1 else 10 * PowerOfTen(k - 1)
  }

  /** A number has at most `k` digits exactly when it is below the `k`th power of ten. */
  lemma {:induction false} DecimalLength(n: nat, k: nat)
    requires k > 0
    ensures |ToDecimal(n)| <= k <==> n < PowerOfTen(k)
    decreases n
  {
    if n < 10 {
      PowerOfTenGrows(k);
    } else if k == 1 {
      assert |ToDecimal(n / 10)| >= 1;
      assert PowerOfTen(1) == 10;
    } else {
      DecimalLength(n / 10, k - 1);
      assert n / 10 < PowerOfTen(k - 1) <==> n < 10 * PowerOfTen(k - 1);
    }
  }

  lemma {:induction false} PowerOfTenGrows(k: nat)
    requires k > 0
    ensures PowerOfTen(k) >= 10
    decreases k
  {
    if k > 1 {
      PowerOfTenGrows(k - 1);
    } else {
      assert PowerOfTen(0) == 1;
    }
  }

  // ---------------------------------------------------------------- Units

  const SECOND: nat := 1_000_000_000

  /** The nanoseconds in a unit, if there is such a unit. */
  function LookupUnit(unit: char): Option<nat> {
    match unit
    case 'H' => Some(3600 * SECOND)
    case 'M' => Some(60 * SECOND)
    case 'S' => Some(SECOND)
    case 'm' => Some(1_000_000)
    case 'u' => Some(1_000)
    case 'n' => Some(1)
    case _ => None
  }

  datatype TimeoutError = Invalid | BadUnit | TooLong

  /** `_parse_timeout`: the nanoseconds of a header; the length, the unit and the digits are checked in this order. */
  function ParseTimeout(timeout: string): Result<nat, TimeoutError> {
    if |timeout| < 2 then Err(Invalid)
    else
      var digits := timeout[..|timeout| - 1];
      var unit := LookupUnit(timeout[|timeout| - 1]);
      if unit.None? then Err(BadUnit)
      else if exists k :: 0 <= k < |digits| && !IsDigit(digits[k]) then Err(Invalid)
      else if |digits| > 8 then Err(TooLong)
      else Ok(FromDecimal(digits) * unit.value)
  }

  /** What comes before the unit of a timeout, which is its last character. */
  predicate IsTimeout(timeout: string, digits: string, unit: char) {
    && timeout == digits + [unit] && 1 <= |digits| <= 8 && unit in "HMSmun"
    && forall k :: 0 <= k < |digits| ==> '0' <= digits[k] <= '9'
  }

  /** A timeout is one to eight digits and a unit, from hours down to nanoseconds. */
  lemma ParseMeans(timeout: string, digits: string, unit: char)
    ensures IsTimeout(timeout, digits, unit) ==> ParseTimeout(timeout) == Ok(
      FromDecimal(digits)
      * (if unit == 'H' then 3_600_000_000_000 else if unit == 'M' then 60_000_000_000
         else if unit == 'S' then 1_000_000_000 else if unit == 'm' then 1_000_000
         else if unit == 'u' then 1_000 else 1))
    ensures timeout == digits + [unit] && ParseTimeout(timeout).Ok? ==> IsTimeout(timeout, digits, unit)
    ensures timeout == digits + [unit] && digits != [] && unit !in "HMSmun" ==> ParseTimeout(timeout) == Err(BadUnit)
    ensures |timeout| < 2 ==> ParseTimeout(timeout) == Err(Invalid)
    // With a unit, characters that are not digits come before their number.
    ensures timeout == digits + [unit] && digits != [] && unit in "HMSmun" && ParseTimeout(timeout).Err? ==>
      ParseTimeout(timeout).error ==
        if exists k :: 0 <= k < |digits| && !('0' <= digits[k] <= '9') then Invalid else TooLong
  {
    if timeout == digits + [unit] {
      assert timeout[..|timeout| - 1] == digits && timeout[|timeout| - 1] == unit;
    }
  }

  lemma ParseExample()
    ensures ParseTimeout("15S") == Ok(15_000_000_000) && ParseTimeout("250u") == Ok(250_000)
  {
    ParseMeans("15S", "15", 'S');
    ParseMeans("250u", "250", 'u');
    assert "15S" == "15" + ['S'] && "250u" == "250" + ['u'];
    assert "15"[..1] == "1" && "1"[..0] == "" && "250"[..2] == "25" && "25"[..1] == "2" && "2"[..0] == "";
    assert FromDecimal("") == 0 && FromDecimal("1") == 1 && FromDecimal("2") == 2;
    assert FromDecimal("15") == 15 && FromDecimal("25") == 25;
  }

  const MAX_VALUE: nat := 100_000_000

  /** The unit chosen for a timeout: its letter, and its size in milliseconds. */
  function ChooseUnit(ms: nat): (char, nat) {
    if ms < MAX_VALUE then ('m', 1)
    else if ms < MAX_VALUE * 1000 then ('S', 1000)
    else if ms < MAX_VALUE * 60 * 1000 then ('M', 60 * 1000)
    else ('H', 60 * 60 * 1000)
  }

  function SerializeTimeout(ms: int): string {
    if ms <= 0 then "0n"
    else
      var (unit, size) := ChooseUnit(ms);
      ToDecimal(ms / size) + [unit]
  }

  /** The largest timeout, exclusive, that fits the grammar: 10^8 hours. */
  const LIMIT: nat := MAX_VALUE * 3_600_000

  // ---------------------------------------------------------------- Printing and parsing

  lemma UnitFits(ms: nat)
    ensures var (unit, size) := ChooseUnit(ms);
      LookupUnit(unit) == Some(size * 1_000_000) && (ms / size < MAX_VALUE <==> ms < LIMIT)
  {
  }

  lemma EightDigits(n: nat)
    ensures |ToDecimal(n)| <= 8 <==> n < MAX_VALUE
  {
    DecimalLength(n, 8);
    assert PowerOfTen(4) == 10000;
  }

  lemma ParsePrinted(n: nat, unit: char)
    requires LookupUnit(unit).Some?
    ensures ParseTimeout(ToDecimal(n) + [unit]) ==
      if n < MAX_VALUE then Ok(n * LookupUnit(unit).value) else Err(TooLong)
  {
    var timeout := ToDecimal(n) + [unit];
    assert timeout[..|timeout| - 1] == ToDecimal(n);
    DecimalRoundTrip(n);
    EightDigits(n);
  }

  lemma ParseSerialized(ms: int)
    requires ms > 0
    ensures var (unit, size) := ChooseUnit(ms);
      ParseTimeout(SerializeTimeout(ms)) ==
        if ms < LIMIT then Ok(ms / size * (size * 1_000_000)) else Err(TooLong)
  {
    UnitFits(ms);
    ParsePrinted(ms / ChooseUnit(ms).1, ChooseUnit(ms).0);
  }

  /** What this library prints it accepts, exactly when the timeout fits the grammar. */
  lemma AcceptsWhatItPrints(ms: int)
    ensures ParseTimeout(SerializeTimeout(ms)).Ok? <==> ms < LIMIT
  {
    if ms > 0 {
      ParseSerialized(ms);
    } else {
      assert SerializeTimeout(ms)[..1] == "0";
    }
  }

  /**
   * The peer's timeout is never later than the caller's: it loses less than one unit, less than one
   * part in a hundred thousand, and nothing below 10^8 milliseconds. A timeout in the past is zero.
   */
  lemma TimeoutLoss(ms: int)
    requires ms < LIMIT
    ensures ParseTimeout(SerializeTimeout(ms)).Ok? && (ms <= 0 ==> SerializeTimeout(ms) == "0n")
    ensures var parsed := ParseTimeout(SerializeTimeout(ms)).value;
      if ms <= 0 then parsed == 0
      else
        && parsed <= ms * 1_000_000 < parsed + ChooseUnit(ms).1 * 1_000_000
        && (ms * 1_000_000 - parsed) * 100_000 < ms * 1_000_000
        && (ms < MAX_VALUE ==> parsed == ms * 1_000_000)
  {
    if ms > 0 {
      ParseSerialized(ms);
    } else {
      var zero := SerializeTimeout(ms)[..1];
      assert zero == "0" && zero[..0] == [];
      assert FromDecimal(zero) == FromDecimal(zero[..0]) * 10 + ValueOf('0');
    }
  }

  /** The first timeout that the grammar has no room for is printed all the same, and refused. */
  lemma PrintsWhatItRefuses() returns (ms: nat)
    ensures ms == LIMIT && ParseTimeout(SerializeTimeout(ms)) == Err(TooLong)
  {
    ms := LIMIT;
    ParseSerialized(ms);
  }

  // ---------------------------------------------------------------- Order

  /**
   * The only timeouts that come out in the wrong order: one of the last in seconds with one of the
   * first in minutes, or one of the last in minutes with one of the first in hours.
   */
  predicate Inverted(a: int, b: int) {
    || 99_999_961_000 <= a < 100_000_000_000 <= b < 100_000_020_000
    || 5_999_997_660_000 <= a < 6_000_000_000_000 <= b < 6_000_001_200_000
  }

  /** What the peer is told, in milliseconds. */
  function Told(ms: int): nat {
    if ms <= 0 then 0 else ms / ChooseUnit(ms).1 * ChooseUnit(ms).1
  }

  lemma ParseTold(ms: int)
    requires ms < LIMIT
    ensures ParseTimeout(SerializeTimeout(ms)) == Ok(Told(ms) * 1_000_000)
  {
    if ms > 0 {
      ParseSerialized(ms);
      var size := ChooseUnit(ms).1;
      assert ms / size * (size * 1_000_000) == ms / size * size * 1_000_000;
    } else {
      TimeoutLoss(ms);
    }
  }

  /** Where the unit changes, only the multiples around the change matter. */
  lemma SecondsThenMinutes(a: nat, b: nat)
    requires a < 100_000_000_000 <= b
    ensures a / 1000 * 1000 <= b / 60_000 * 60_000 <==> !(99_999_961_000 <= a && b < 100_000_020_000)
  {
    var q, r := a / 1000, b / 60_000;
    assert q <= 99_999_999 && (q >= 99_999_961 <==> a >= 99_999_961_000);
    assert r >= 1_666_666 && (r >= 1_666_667 <==> b >= 100_000_020_000);
  }

  lemma MinutesThenHours(a: nat, b: nat)
    requires a < 6_000_000_000_000 <= b
    ensures a / 60_000 * 60_000 <= b / 3_600_000 * 3_600_000 <==> !(5_999_997_660_000 <= a && b < 6_000_001_200_000)
  {
    var q, r := a / 60_000, b / 3_600_000;
    assert q <= 99_999_999 && (q >= 99_999_961 <==> a >= 5_999_997_660_000);
    assert r >= 1_666_666 && (r >= 1_666_667 <==> b >= 6_000_001_200_000);
  }

  lemma ToldIsMonotoneWithin(a: nat, b: nat)
    requires 0 < a <= b && ChooseUnit(a) == ChooseUnit(b)
    ensures Told(a) <= Told(b)
  {
    if b < MAX_VALUE {
    } else if b < MAX_VALUE * 1000 {
      assert a / 1000 <= b / 1000;
    } else if b < MAX_VALUE * 60 * 1000 {
      assert a / 60_000 <= b / 60_000;
    } else {
      assert a / 3_600_000 <= b / 3_600_000;
    }
  }

  /** From a shorter unit to one further on, no timeout is cut enough to matter. */
  lemma ToldIsMonotoneAcross(a: nat, b: nat)
    requires 0 < a <= b && (a < MAX_VALUE <= b || (a < MAX_VALUE * 1000 && MAX_VALUE * 60 * 1000 <= b))
    ensures Told(a) <= a <= Told(b)
  {
    if b < MAX_VALUE * 1000 {
      assert b / 1000 >= 100_000;
    } else if b < MAX_VALUE * 60 * 1000 {
      assert b / 60_000 >= 1_666_666;
    } else {
      assert b / 3_600_000 >= 1_666_666;
    }
  }

  lemma ToldIsMonotone(a: nat, b: nat)
    requires 0 < a <= b
    ensures Told(a) <= Told(b) <==> !Inverted(a, b)
  {
    if ChooseUnit(a) == ChooseUnit(b) {
      ToldIsMonotoneWithin(a, b);
    } else if a < MAX_VALUE || (a < MAX_VALUE * 1000 && MAX_VALUE * 60 * 1000 <= b) {
      ToldIsMonotoneAcross(a, b);
    } else if a < MAX_VALUE * 1000 {
      SecondsThenMinutes(a, b);
    } else {
      MinutesThenHours(a, b);
    }
  }

  /** A longer timeout comes out no shorter, except exactly where the unit changes. */
  lemma MonotoneUnlessInverted(a: int, b: int)
    requires a <= b < LIMIT
    ensures ParseTimeout(SerializeTimeout(a)).Ok? && ParseTimeout(SerializeTimeout(b)).Ok?
    ensures ParseTimeout(SerializeTimeout(a)).value <= ParseTimeout(SerializeTimeout(b)).value <==> !Inverted(a, b)
  {
    ParseTold(a);
    ParseTold(b);
    if a > 0 {
      ToldIsMonotone(a, b);
    }
  }

  /** A longer timeout can come out shorter: the last in seconds and the first in minutes. */
  lemma NotMonotone()
    ensures ParseTimeout(SerializeTimeout(99_999_999_999)).Ok? && ParseTimeout(SerializeTimeout(100_000_000_000)).Ok?
    ensures ParseTimeout(SerializeTimeout(100_000_000_000)).value < ParseTimeout(SerializeTimeout(99_999_999_999)).value
  {
    MonotoneUnlessInverted(99_999_999_999, 100_000_000_000);
  }
}
