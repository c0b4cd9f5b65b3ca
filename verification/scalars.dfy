/** Scalar column types shared by every entity. */
module Scalars {

  /** A surrogate key. Keys are assigned by the store and start at 1. */
  type Id = nat

  /** A UTC instant, counted in 100-nanosecond ticks as `DateTime` does. */
  type Time = int

  /** A `decimal(18,2)` amount, held exactly as a whole number of cents. */
  type Cents = int

  /** `DateTime.AddDays(1)` in ticks. */
  const TicksPerDay: int := 864_000_000_000

  function AddDays(t: Time, days: int): (r: Time)
    ensures days > 0 ==> r > t
    ensures days < 0 ==> r < t
    ensures days == 0 ==> r == t
  {
    t + days * TicksPerDay
  }
}
