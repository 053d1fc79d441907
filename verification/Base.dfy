/** Small shared types. */
module Base {
  datatype Option<+T> = None | Some(value: T)

  /** A failure-compatible result; every error of the codec is the same `Invalid`. */
  datatype Result<+T> = Ok(value: T) | Invalid {
    predicate IsFailure() { Invalid? }

    function PropagateFailure<U>(): Result<U>
      requires Invalid?
    {
      Invalid
    }

    function Extract(): T
      requires Ok?
    {
      value
    }
  }
}

/** Saturating 64-bit nanosecond time (src/clock.rs). */
module Clock {
  const U64_MAX: nat := 0xFFFF_FFFF_FFFF_FFFF
  type u64 = x: nat | x <= U64_MAX

  const MILLISECOND: nat := 1_000_000
  const SECOND: nat := 1_000_000_000

  function Min(a: nat, b: nat): nat { if a <= b then a else b }

  function Max(a: nat, b: nat): nat { if a <= b then b else a }

  function Add(base: nat, duration: nat): nat { Min(base + duration, U64_MAX) }

  function Remaining(now: nat, deadline: nat): nat { if now <= deadline then deadline - now else 0 }
}
