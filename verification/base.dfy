/** Values the service handles without looking inside them: Go bytes and
    strings, `uuid.UUID`, `time.Time`, and the Option / Result wrappers that
    stand for nullable columns, omitted JSON fields and `(value, error)`
    returns. */
module Base {

  /** One byte of a Go string. */
  newtype byte = x: int | 0 <= x < 256

  /** A Go string is a sequence of bytes; `len` counts them. */
  type Bytes = seq<byte>

  datatype Option<+T> = None | Some(value: T) {
    /** The value in Some, or `default` for None. */
    function GetOr(default: T): T {
      match this
      case Some(v) => v
      case None => default
    }
  }

  /** The `(value, error)` pair a Go function returns: exactly one side is set. */
  datatype Result<+T, +E> = Success(value: T) | Failure(error: E)

  /** A `uuid.UUID` is an array of sixteen bytes. */
  type UUID = b: Bytes | |b| == 16 witness [0, 0, 0, 0, 0, 0, 0, 0, 0, 0, 0, 0, 0, 0, 0, 0]

  /** Nanoseconds within a second, as `time.Time` keeps them. */
  type Nanos = n: int | 0 <= n < 1_000_000_000

  /** A `time.Time`, reduced to the instant it denotes: seconds since
      January 1, year 1, 00:00:00 UTC, and nanoseconds within that second.
      The location (time zone) is not modelled. */
  datatype Time = Time(seconds: int, nanos: Nanos) {
    /** Go's `Time.IsZero`: the instant is January 1, year 1, 00:00:00 UTC. */
    predicate IsZero() {
      seconds == 0 && nanos == 0
    }
  }

  /** The zero `time.Time`, which is also what the timestamp literal
      '0001-01-01 00:00:00+00' scans into. */
  const ZeroTime: Time := Time(0, 0)
}
