/** Types shared by every model: optional values, Python-style failures, clock arithmetic. */
module Common {

  datatype Option<+T> = None | Some(value: T)

  /** An expression that can raise in the source yields a Failure here. */
  datatype Result<+T> = Success(value: T) | Failure(error: Error) {
    predicate IsFailure() {
      Failure?
    }

    function PropagateFailure<U>(): Result<U>
      requires Failure?
    {
      Failure(error)
    }

    function Extract(): T
      requires Success?
    {
      value
    }
  }

  datatype Error =
    | DivisionByZero
    | NoCandles
    | RepeatedCandle
    | OverlappingCandles
    | RepeatedSignal
    | SignalCandleMismatch

  /** Trading pairs; the order of the numbers stands for the order of the names. */
  type Symbol = nat

  /** Instants are microseconds since a UTC midnight. */
  type Time = int

  const MINUTE: int := 60_000_000
  const DAY: int := 1440 * MINUTE

  /** The calendar date of an instant (`datetime.date()`): `/` rounds down here. */
  function Date(t: Time): int {
    t / DAY
  }

  function Min(a: real, b: real): real {
    if a <= b then a else b
  }

  function Max(a: real, b: real): real {
    if a >= b then a else b
  }

  function Clamp(value: real, low: real, high: real): real {
    Max(low, Min(value, high))
  }
}
