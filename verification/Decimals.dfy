/** Decimal digits in checked machine arithmetic (src/cli.rs), and what the cap on a fraction costs. */
module Decimals {
  import opened Base
  import opened Clock
  import opened Messages

  const U128: nat := (U64_MAX + 1) * (U64_MAX + 1)

  // ---------------------------------------------------------------- decimal numbers

  predicate IsDigit(b: byte) { 0x30 <= b <= 0x39 }

  predicate AllDigits(s: seq<byte>) { forall k :: 0 <= k < |s| ==> IsDigit(s[k]) }

  type Digits = s: seq<byte> | AllDigits(s)

  function Decimal(digits: Digits): nat {
    if digits == [] then 0 else 10 * Decimal(digits[..|digits| - 1]) + (digits[|digits| - 1] - 0x30)
  }

  function Ten(k: nat): (p: nat)
    ensures p > 0
  {
    if k == 0 then 1 else 10 * Ten(k - 1)
  }

  lemma {:induction false} DecimalBound(digits: Digits)
    ensures Decimal(digits) < Ten(|digits|)
  {
    if digits != [] { DecimalBound(digits[..|digits| - 1]); }
  }

  lemma {:induction false} PrefixIsSmaller(digits: Digits, k: nat)
    requires k <= |digits|
    ensures Decimal(digits[..k]) <= Decimal(digits)
  {
    if k < |digits| {
      PrefixIsSmaller(digits[..|digits| - 1], k);
      assert digits[..|digits| - 1][..k] == digits[..k];
    } else {
      assert digits[..k] == digits;
    }
  }

  /** The shortest decimal numeral of `n`. */
  function Numeral(n: nat): (digits: Digits)
    ensures digits != []
  {
    if n < 10 then [0x30 + n] else Numeral(n / 10) + [0x30 + n % 10]
  }

  lemma {:induction false} NumeralRoundTrip(n: nat)
    ensures Decimal(Numeral(n)) == n
  {
    if n >= 10 {
      NumeralRoundTrip(n / 10);
      assert Numeral(n)[..|Numeral(n)| - 1] == Numeral(n / 10);
    } else {
      assert Numeral(n)[..0] == [];
    }
  }

  /** `parse_ascii_integer`. */
  method ParseInteger(digits: Digits) returns (r: Option<nat>)
    ensures r == if Decimal(digits) < U128 then Some(Decimal(digits)) else None
  {
    var value := 0;
    var i := 0;
    while i < |digits|
      invariant i <= |digits| && value == Decimal(digits[..i]) < U128
    {
      assert digits[..i + 1][..i] == digits[..i];
      PrefixIsSmaller(digits, i + 1);
      value := value * 10;
      if value >= U128 { return None; }
      value := value + (digits[i] - 0x30);
      if value >= U128 { return None; }
      i := i + 1;
    }
    assert digits[..i] == digits;
    r := Some(value);
  }

  const I64_MAX: nat := 0x7FFF_FFFF_FFFF_FFFF

  /** The longest prefix whose value is at most 2^63. */
  predicate Longest(digits: Digits, kept: nat) {
    && kept <= |digits| && Decimal(digits[..kept]) <= I64_MAX + 1
    && (kept < |digits| ==> Decimal(digits[..kept + 1]) > I64_MAX + 1)
  }

  /** `parse_ascii_fraction`: 64-bit arithmetic that never overflows; the scale is ten to the `kept`. */
  method ParseFraction(digits: Digits) returns (value: u64, kept: nat)
    ensures Longest(digits, kept) && value == Decimal(digits[..kept])
  {
    value, kept := 0, 0;
    var overflow := false;
    var i := 0;
    while i < |digits|
      invariant kept <= i <= |digits| && value == Decimal(digits[..kept]) && value <= I64_MAX + 1
      invariant !overflow ==> kept == i
      invariant overflow ==> kept < |digits| && Decimal(digits[..kept + 1]) > I64_MAX + 1
    {
      if !overflow {
        assert digits[..i + 1][..i] == digits[..i];
        if value > I64_MAX / 10 {
          overflow := true;
        } else {
          var next: u64 := value * 10 + (digits[i] - 0x30);
          if next > I64_MAX + 1 {
            overflow := true;
          } else {
            value, kept := next, i + 1;
          }
        }
      }
      i := i + 1;
    }
  }

  lemma LongerIsTooLarge(digits: Digits, kept: nat, k: nat)
    requires Longest(digits, kept) && kept < k <= |digits|
    ensures Decimal(digits[..k]) > I64_MAX + 1
  {
    PrefixIsSmaller(digits[..k], kept + 1);
    assert digits[..k][..kept + 1] == digits[..kept + 1];
  }

  lemma LongestIsUnique(digits: Digits, j: nat, k: nat)
    requires Longest(digits, j) && Longest(digits, k)
    ensures j == k
  {
    if j < k { LongerIsTooLarge(digits, j, k); }
    if k < j { LongerIsTooLarge(digits, k, j); }
  }

  lemma {:induction false} TenGrows(j: nat, k: nat)
    requires j <= k
    ensures Ten(j) <= Ten(k)
    decreases k
  {
    if j < k { TenGrows(j, k - 1); }
  }

  lemma TenToThe18()
    ensures Ten(18) == 1_000_000_000_000_000_000
  {
    assert Ten(9) == 1_000_000_000;
    assert Ten(17) == 100_000_000_000_000_000;
  }

  /** Digits are only ever dropped after at least eighteen have been kept. */
  lemma EighteenAreKept(digits: Digits, kept: nat)
    requires Longest(digits, kept) && kept < |digits|
    ensures kept >= 18
  {
    DecimalBound(digits[..kept + 1]);
    TenToThe18();
    if kept < 18 { TenGrows(kept + 1, 18); }
  }

  // ---------------------------------------------------------------- what dropping digits costs

  lemma {:induction false} DecimalSplit(digits: Digits, k: nat)
    requires k <= |digits|
    ensures Decimal(digits) == Decimal(digits[..k]) * Ten(|digits| - k) + Decimal(digits[k..])
  {
    var n := |digits|;
    if k == n {
      assert digits[..k] == digits;
    } else {
      var shorter := digits[..n - 1];
      DecimalSplit(shorter, k);
      assert shorter[..k] == digits[..k];
      assert digits[k..][..n - 1 - k] == shorter[k..];
      Regroup(Decimal(digits[..k]), Ten(n - 1 - k), Decimal(shorter[k..]), digits[n - 1] - 0x30);
    }
  }

  lemma Regroup(head: nat, p: nat, tail: nat, digit: nat)
    ensures 10 * (head * p + tail) + digit == head * (10 * p) + (10 * tail + digit)
  {
  }

  lemma {:induction false} TenSum(j: nat, k: nat)
    ensures Ten(j + k) == Ten(j) * Ten(k)
  {
    if j > 0 { TenSum(j - 1, k); }
  }

  /** The part of `unit` that a fraction is, exactly. */
  function Share(digits: Digits, unit: nat): real { (unit * Decimal(digits)) as real / Ten(|digits|) as real }

  /** What the cap on a fraction's digits loses of any unit up to an hour is under a nanosecond. */
  lemma DroppedTailIsTiny(digits: Digits, kept: nat, unit: nat)
    requires Longest(digits, kept) && unit <= 3_600_000_000_000
    ensures 0.0 <= Share(digits, unit) - Share(digits[..kept], unit) < 1.0
  {
    if kept == |digits| {
      assert digits[..kept] == digits;
      return;
    }
    EighteenAreKept(digits, kept);
    var n := |digits|;
    var p, q := Ten(kept), Ten(n - kept);
    var head, tail := Decimal(digits[..kept]), Decimal(digits[kept..]);
    TenSum(kept, n - kept);
    DecimalSplit(digits, kept);
    DecimalBound(digits[kept..]);
    TenToThe18();
    TenGrows(18, kept);
    TailIsTiny(unit, tail, p, q);
    SplitShare(unit, head, tail, p, q);
  }

  lemma TailIsTiny(unit: nat, tail: nat, p: nat, q: nat)
    requires unit < p && tail < q
    ensures unit * tail < p * q
  {
    assert unit * tail <= unit * q;
    assert unit * q < p * q;
  }

  lemma SplitShare(unit: nat, head: nat, tail: nat, p: nat, q: nat)
    requires p > 0 && q > 0 && unit * tail < p * q
    ensures p * q > 0
    ensures 0.0 <= (unit * (head * q + tail)) as real / (p * q) as real - (unit * head) as real / p as real < 1.0
  {
    var a, b, c := (unit * head) as real, p as real, q as real;
    assert (p * q) as real == b * c;
    assert unit * (head * q + tail) == unit * head * q + unit * tail;
    assert (unit * (head * q + tail)) as real == a * c + (unit * tail) as real;
    assert (a * c + (unit * tail) as real) / (b * c) == a / b + (unit * tail) as real / (b * c);
  }
}
