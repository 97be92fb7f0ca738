/** MathUtils.round(int number, int base): rounds number to the nearest
    power of base. A loop multiplies target, starting at base, until it
    reaches number; then target is divided by base once if the smaller
    power is strictly closer. */
module MathUtils {
  import opened JavaLang

  function Pow(base: int, k: nat): int
  {
    if k == 0 then 1 else Pow(base, k - 1) * base
  }

  /** The value of target after k - 1 passes of the loop: base, then
      multiplied by base in int arithmetic, which wraps around. */
  function Target(base: int32, k: nat): int32
    requires k >= 1
  {
    if k == 1 then base else Wrap32(Target(base, k - 1) as int * base as int)
  }

  /** base^k, for k >= 1, is the first power of base that reaches number. */
  ghost predicate FirstReaching(number: int, base: int, k: nat)
  {
    && k >= 1
    && Pow(base, k) >= number
    && forall j: nat :: 1 <= j < k ==> Pow(base, j) < number
  }

  /** The loop stops after k - 1 passes: the k-th target is the first that
      is not below number. */
  ghost predicate Stops(number: int32, base: int32, k: nat)
  {
    && k >= 1
    && Target(base, k) >= number
    && forall j: nat :: 1 <= j < k ==> Target(base, j) < number
  }

  /** The final test of round: the smaller power target / base is kept when
      target - number exceeds number - target / base (all in int arithmetic). */
  function Choose(number: int, base: int, target: int): int
    requires base != 0
  {
    var lower := Wrap32(JavaDiv(target, base));
    if Wrap32(target - number) > Wrap32(number - lower) then lower else target
  }

  /** round(number, base), for the inputs on which its loop ends (some
      target reaches number). A zero base divides by zero at line 26. */
  method Round(number: int32, base: int32) returns (r: Result<int32>, ghost k: nat)
    requires exists n: nat :: n >= 1 && Target(base, n) >= number
    ensures base == 0 <==> r == Throws(ArithmeticDivideByZero)
    ensures Stops(number, base, k)
    ensures base != 0 ==> r == Ok(Choose(number, base, Target(base, k)))
    ensures number <= base ==> k == 1
  {
    ghost var last: nat :| last >= 1 && Target(base, last) >= number;
    var target: int32 := base;
    k := 1;
    while target < number
      invariant 1 <= k <= last && target == Target(base, k)
      invariant forall j: nat :: 1 <= j < k ==> Target(base, j) < number
      decreases last - k
    {
      target := Wrap32(target as int * base as int);
      k := k + 1;
    }
    if base == 0 {
      return Throws(ArithmeticDivideByZero), k;
    }
    var lower := Wrap32(JavaDiv(target, base));
    var above, below := Wrap32(target - number), Wrap32(number - lower);
    ChooseUnfolds(number, base, target, lower, above, below);
    if above > below {
      target := lower;
    }
    r := Ok(target);
  }

  /** The final test of round, step by step. */
  lemma ChooseUnfolds(number: int, base: int, target: int, lower: int, above: int, below: int)
    requires base != 0 && lower == Wrap32(JavaDiv(target, base))
    requires above == Wrap32(target - number) && below == Wrap32(number - lower)
    ensures Choose(number, base, target) == if above > below then lower else target
  {
  }

  /** With a base of 1 or -1 every target is 1 or -1. */
  lemma {:induction false} UnitTargets(base: int32, k: nat)
    requires base == 1 || base == -1
    requires k >= 1
    ensures Target(base, k) == 1 || Target(base, k) == -1
    decreases k
  {
    if k > 1 {
      UnitTargets(base, k - 1);
    }
  }

  /** With a zero base every target is 0. */
  lemma {:induction false} ZeroTargets(k: nat)
    requires k >= 1
    ensures Target(0, k) == 0
    decreases k
  {
    if k > 1 {
      ZeroTargets(k - 1);
    }
  }

  /** The inputs on which the loop never ends: a base of 1 or -1 with
      number at least 2, and a zero base with a positive number. */
  lemma NeverStops(number: int32, base: int32)
    requires ((base == 1 || base == -1) && number >= 2) || (base == 0 && number > 0)
    ensures forall k: nat :: k >= 1 ==> Target(base, k) < number
  {
    forall k: nat | k >= 1
      ensures Target(base, k) < number
    {
      if base == 0 {
        ZeroTargets(k);
      } else {
        UnitTargets(base, k);
      }
    }
  }

  /** What round should return for a base of 1 or -1, where the loop
      cannot reach number: the nearest power of base, the larger on a tie. */
  function RoundUnitBase(number: int, base: int): (r: int)
    requires base == 1 || base == -1
    ensures r == Pow(base, 0) || r == Pow(base, 1)
    ensures forall j: nat :: Abs(r - number) <= Abs(Pow(base, j) - number)
    ensures forall j: nat :: Abs(r - number) == Abs(Pow(base, j) - number) ==> r >= Pow(base, j)
  {
    assert Pow(base, 1) == base;
    forall j: nat
      ensures Pow(base, j) == 1 || Pow(base, j) == base
    {
      UnitPowers(base, j);
    }
    if base == -1 && number < 0 then -1 else 1
  }

  lemma {:induction false} UnitPowers(base: int, j: nat)
    requires base == 1 || base == -1
    ensures Pow(base, j) == 1 || Pow(base, j) == base
    decreases j
  {
    if j > 0 {
      UnitPowers(base, j - 1);
    }
  }

  /** For a base of at least 2, while the power is an int, the loop's
      target is exactly that power. */
  lemma {:induction false} TargetIsPow(base: int32, k: nat)
    requires base >= 2 && k >= 1 && IsInt(Pow(base, k))
    ensures Target(base, k) == Pow(base, k)
    decreases k
  {
    PowGrows(base, k - 1);
    if k > 1 {
      PowGrows(base, k - 2);
      TargetIsPow(base, k - 1);
    }
  }

  lemma MultiplyThenDivide(a: int, b: int)
    requires a >= 0 && b > 0
    ensures a * b / b == a
  {
    var p := a * b;
    var q := p / b;
    assert p == q * b + p % b;
    assert (a - q) * b == p % b;
    if a - q >= 1 {
      AtLeastOnce(a - q, b);
    } else if a - q <= -1 {
      AtLeastOnce(q - a, b);
    }
  }

  lemma AtLeastOnce(x: int, b: int)
    requires x >= 1 && b > 0
    ensures x * b >= b
  {
  }

  /** Powers of a base of at least 2 are positive and grow by that factor. */
  lemma {:induction false} PowGrows(base: int, k: nat)
    requires base >= 2
    ensures Pow(base, k) >= 1
    ensures Pow(base, k + 1) == Pow(base, k) * base >= 2 * Pow(base, k)
    decreases k
  {
    if k > 0 {
      PowGrows(base, k - 1);
    }
  }

  /** Powers of a base of at least 2 are strictly increasing. */
  lemma {:induction false} PowMonotone(base: int, i: nat, j: nat)
    requires base >= 2 && i < j
    ensures Pow(base, i) < Pow(base, j)
    decreases j - i
  {
    PowGrows(base, j - 1);
    if i < j - 1 {
      PowMonotone(base, i, j - 1);
    }
  }

  /** The exponent at which the loop stops is determined by number and base. */
  lemma StopsUnique(number: int32, base: int32, k1: nat, k2: nat)
    requires Stops(number, base, k1) && Stops(number, base, k2)
    ensures k1 == k2
  {
  }

  /** For a base of at least 2 and a positive number whose first
      reaching power base^k is an int, the loop stops at base^k without
      wrapping, and round returns base^k, or base^(k-1) when that is
      strictly closer to number (a tie goes to the larger power). */
  lemma RoundIsNearestPower(number: int32, base: int32, k: nat)
    requires base >= 2 && number >= 1
    requires FirstReaching(number, base, k) && IsInt(Pow(base, k))
    ensures Stops(number, base, k) && Target(base, k) == Pow(base, k)
    ensures var t := Pow(base, k);
            var lower := Pow(base, k - 1);
            && lower <= number <= t
            && (Choose(number, base, t) == lower <==> t - number > number - lower)
            && (Choose(number, base, t) == t <==> t - number <= number - lower)
  {
    PowGrows(base, k - 1);
    forall j: nat | 1 <= j <= k
      ensures Target(base, j) == Pow(base, j)
    {
      PowGrows(base, j);
      if j < k {
        PowMonotone(base, j, k);
      }
      TargetIsPow(base, j);
    }
    var t := Pow(base, k);
    var lower := Pow(base, k - 1);
    MultiplyThenDivide(lower, base);
    ChooseBetween(number, base, t, lower);
  }

  /** With both differences in int range, the final test compares them
      exactly. */
  lemma ChooseBetween(number: int, base: int, t: int, lower: int)
    requires base >= 2 && 1 <= lower < t && t == lower * base
    requires lower * base / base == lower
    requires IsInt(number) && IsInt(t) && lower <= number <= t
    ensures Choose(number, base, t) == (if t - number > number - lower then lower else t)
  {
    assert JavaDiv(t, base) == lower;
  }

  /** When number <= base the loop does not run and the result is base or 1. */
  lemma RoundSmallNumber(number: int32, base: int32)
    requires base != 0 && number <= base
    ensures Stops(number, base, 1)
    ensures Choose(number, base, Target(base, 1)) == base || Choose(number, base, Target(base, 1)) == 1
  {
    assert JavaDiv(base, base) == 1;
  }

  /** The documented example: round(18, 2) is 16, since 16 is nearer to 18
      than 32 is. */
  lemma RoundEighteenToPowerOfTwo()
    ensures Stops(18, 2, 5) && Target(2, 5) == 32
    ensures Choose(18, 2, Target(2, 5)) == 16
  {
    assert Target(2, 1) == 2 && Target(2, 2) == 4 && Target(2, 3) == 8 && Target(2, 4) == 16 && Target(2, 5) == 32;
  }

  /** A negative base: round(5, -3) passes -3 and stops at 9, which is
      nearer to 5 than -3 is. */
  lemma RoundNegativeBase()
    ensures Stops(5, -3, 2) && Target(-3, 2) == 9
    ensures Choose(5, -3, Target(-3, 2)) == 9
  {
    assert Target(-3, 1) == -3 && Target(-3, 2) == 9;
    assert JavaDiv(9, -3) == -3;
  }
}
