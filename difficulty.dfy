/**
 * The two difficulty helpers of src/main.rs: `normalize_difficulty`, which turns a 256-bit
 * proof-of-work target into the ratio (2^256 - 1) / target, and the unit-prefix loop of
 * `format_biguint_hr`. Arithmetic is exact (`real`), not f64.
 */
module Difficulty {
  import opened Bytes

  /** The all-ones 256-bit target (`[255u8; 32]`). */
  function MaxTargetBytes(): Bytes32
  {
    AllOnes(32)
  }

  /** `BigUint::from_bytes_be(&[255u8; 32])`, which is 256^32 - 1 = 2^256 - 1. */
  function MaxTarget(): nat
  {
    FromBytesBE(MaxTargetBytes())
  }

  /** Every 32-byte target is at most the all-ones one, which is 256^32 - 1. */
  lemma MaxTargetBounds(target: Bytes32)
    ensures MaxTarget() == Pow(256, |target|) - 1
    ensures FromBytesBE(target) <= MaxTarget()
  {
    AllOnesValue(|target|);
  }

  /** `normalize_difficulty`: the all-ones target divided by `target`, both read big-endian. */
  function NormalizeDifficulty(target: Bytes32): (d: real)
    requires FromBytesBE(target) != 0
    ensures 1.0 <= d <= MaxTarget() as real
  {
    MaxTargetBounds(target);
    var t := FromBytesBE(target) as real;
    var m := MaxTarget() as real;
    QuotientBounds(m, t);
    m / t
  }

  /** The all-ones target, and only it, normalizes to exactly 1. */
  lemma NormalizeIsOneIffAllOnes(target: Bytes32)
    requires FromBytesBE(target) != 0
    ensures NormalizeDifficulty(target) == 1.0 <==> target == MaxTargetBytes()
  {
    var t := FromBytesBE(target) as real;
    var m := MaxTarget() as real;
    if NormalizeDifficulty(target) == 1.0 {
      QuotientIsOne(m, t);
      MaxTargetBounds(target);
      MaxValueIsAllOnes(target);
    }
  }

  /** A larger target is an easier puzzle: normalization is strictly decreasing. */
  lemma NormalizeStrictlyDecreasing(t1: Bytes32, t2: Bytes32)
    requires 0 < FromBytesBE(t1) < FromBytesBE(t2)
    ensures NormalizeDifficulty(t1) > NormalizeDifficulty(t2)
  {
    MaxTargetBounds(t1);
    QuotientDecreasing(MaxTarget() as real, FromBytesBE(t1) as real, FromBytesBE(t2) as real);
  }

  lemma QuotientBounds(m: real, t: real)
    requires 1.0 <= t <= m
    ensures 1.0 <= m / t <= m
  {
    assert m / t * t == m;
  }

  lemma QuotientIsOne(m: real, t: real)
    requires 0.0 < t && m / t == 1.0
    ensures m == t
  {
    assert m / t * t == m;
  }

  lemma QuotientDecreasing(m: real, a: real, b: real)
    requires 0.0 < m && 0.0 < a < b
    ensures m / a > m / b
  {
    assert m / a * a == m && m / b * b == m;
  }

  /**
   * An amount of at least 1000 in unit `k` is the amount in unit `k + 1` times 1000, and the
   * difficulty is then at least 1000 units `k`.
   */
  lemma ThousandStep(difficulty: real, k: nat)
    requires difficulty / Thousands(k) >= 1000.0
    ensures difficulty / Thousands(k + 1) == difficulty / Thousands(k) / 1000.0
    ensures difficulty >= 1000.0 * Thousands(k)
  {
    var p := Thousands(k);
    assert Thousands(k + 1) == 1000.0 * p;
    assert difficulty / p * p == difficulty;
  }

  /** The amount in unit `k`, times that unit, is the difficulty. */
  lemma AmountTimesUnit(difficulty: real, k: nat)
    ensures difficulty / Thousands(k) * Thousands(k) == difficulty
  {
  }

  /** The unit prefixes of `format_biguint_hr`. */
  const Units: seq<string> := ["", "K", "M", "G", "T", "P"]

  /** `units.len() - 1`, the index of the largest unit. */
  const LastUnit: nat := 5

  /** 1000^k as a real. */
  function Thousands(k: nat): (p: real)
    ensures p >= 1.0
  {
    if k == 0 then 1.0 else 1000.0 * Thousands(k - 1)
  }

  /** What `format_biguint_hr` prints before the unit: the integer when the scaled value has no
      fractional part (`value_f as u64`), otherwise the value with two decimals. */
  datatype Amount = Whole(n: nat) | TwoDecimals(x: real)

  /** The printed difficulty: an amount followed by `Units[unitIndex]`. */
  datatype HumanReadable = HumanReadable(amount: Amount, unitIndex: nat)
  {
    /** The scaled value the amount was printed from. */
    function Value(): real
    {
      match amount
      case Whole(n) => n as real
      case TwoDecimals(x) => x
    }
  }

  /** The final `if` of `format_biguint_hr`: whole when `value_f.fract() == 0.0`. */
  function Render(value: real, unitIndex: nat): (r: HumanReadable)
    requires value >= 0.0
    ensures r.unitIndex == unitIndex && r.Value() == value
    ensures r.amount.Whole? <==> value.Floor as real == value
  {
    if value.Floor as real == value then HumanReadable(Whole(value.Floor), unitIndex)
    else HumanReadable(TwoDecimals(value), unitIndex)
  }

  /**
   * `format_biguint_hr`: normalize the target, divide by 1000 while the value is at least 1000
   * and a larger unit exists, then print the value whole if it is an integer and with two
   * decimals if not.
   */
  method FormatHumanReadable(target: Bytes32) returns (r: HumanReadable)
    requires FromBytesBE(target) != 0
    ensures r.unitIndex <= LastUnit
    ensures r.Value() >= 1.0
    ensures r.Value() < 1000.0 || r.unitIndex == LastUnit
    ensures r.Value() * Thousands(r.unitIndex) == NormalizeDifficulty(target)
    ensures forall j :: 0 <= j < r.unitIndex ==> NormalizeDifficulty(target) >= 1000.0 * Thousands(j)
    ensures r.amount.Whole? <==> r.Value().Floor as real == r.Value()
  {
    r := FormatDifficulty(NormalizeDifficulty(target));
  }

  /** The unit loop and the choice of format, for a difficulty already normalized. */
  method FormatDifficulty(difficulty: real) returns (r: HumanReadable)
    requires difficulty >= 1.0
    ensures r.unitIndex <= LastUnit
    ensures r.Value() >= 1.0
    ensures r.Value() < 1000.0 || r.unitIndex == LastUnit
    ensures r.Value() * Thousands(r.unitIndex) == difficulty
    ensures forall j :: 0 <= j < r.unitIndex ==> difficulty >= 1000.0 * Thousands(j)
    ensures r.amount.Whole? <==> r.Value().Floor as real == r.Value()
  {
    var value, unitIndex := ScaleToUnit(difficulty);
    r := Render(value, unitIndex);
  }

  /**
   * The `while` loop of `format_biguint_hr`: the largest unit, up to the last, that leaves a
   * value of at least 1, and the difficulty expressed in it.
   */
  method ScaleToUnit(difficulty: real) returns (value: real, unitIndex: nat)
    requires difficulty >= 1.0
    ensures unitIndex <= LastUnit
    ensures value >= 1.0
    ensures value < 1000.0 || unitIndex == LastUnit
    ensures value * Thousands(unitIndex) == difficulty
    ensures forall j :: 0 <= j < unitIndex ==> difficulty >= 1000.0 * Thousands(j)
  {
    value := difficulty;
    unitIndex := 0;
    while value >= 1000.0 && unitIndex < LastUnit
      invariant unitIndex <= LastUnit
      invariant value >= 1.0
      invariant value == difficulty / Thousands(unitIndex)
      invariant forall j :: 0 <= j < unitIndex ==> difficulty >= 1000.0 * Thousands(j)
    {
      ThousandStep(difficulty, unitIndex);
      value := value / 1000.0;
      unitIndex := unitIndex + 1;
    }
    AmountTimesUnit(difficulty, unitIndex);
  }

  /**
   * With exact arithmetic, a whole amount is always below 1000, so the `value_f as u64` cast
   * would never saturate: below the largest unit the loop only stops under 1000, and at the
   * largest unit an integer amount would make the odd number 2^256 - 1 a multiple of 1000^5.
   * (In `f64` every value from 2^53 on has no fractional part, so this holds of reals only.)
   */
  lemma WholeAmountBelowThousand(target: Bytes32, r: HumanReadable)
    requires FromBytesBE(target) != 0
    requires r.unitIndex <= LastUnit && (r.Value() < 1000.0 || r.unitIndex == LastUnit)
    requires r.Value() * Thousands(r.unitIndex) == NormalizeDifficulty(target)
    requires r.amount.Whole?
    ensures r.amount.n < 1000
  {
    if r.unitIndex == LastUnit && r.amount.n >= 1000 {
      var q := r.amount.n * 1000000000000000;
      assert q as real == NormalizeDifficulty(target) by {
        assert Thousands(LastUnit) == 1000000000000000.0;
      }
      MaxTargetOdd(target);
      OddIsNoMultiple(MaxTarget(), FromBytesBE(target), r.amount.n);
    }
  }

  lemma MaxTargetOdd(target: Bytes32)
    ensures MaxTarget() % 2 == 1
  {
    MaxTargetBounds(target);
    var p := Pow(256, |target|);
    PowEven(256, |target|);
    assert MaxTarget() == p - 1;
  }

  /** An odd numerator divided by `t` is never a multiple of 1000^5. */
  lemma OddIsNoMultiple(m: nat, t: nat, n: nat)
    requires t > 0 && m % 2 == 1
    ensures (n * 1000000000000000) as real != m as real / t as real
  {
    var q := n * 1000000000000000;
    assert q * t == 2 * (n * 500000000000000 * t);
    assert m != q * t;
    QuotientExact(m, t, q);
  }

  lemma QuotientExact(m: nat, t: nat, q: nat)
    requires t > 0
    ensures q as real == m as real / t as real ==> m == q * t
  {
    if q as real == m as real / t as real {
      assert q as real * t as real == m as real;
      assert (q * t) as real == q as real * t as real;
    }
  }

  lemma {:induction false} PowEven(base: nat, k: nat)
    requires base % 2 == 0 && k > 0
    ensures Pow(base, k) % 2 == 0
  {
    assert Pow(base, k) == base * Pow(base, k - 1);
    assert base * Pow(base, k - 1) == 2 * ((base / 2) * Pow(base, k - 1));
  }
}
