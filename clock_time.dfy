/**
 * Time values used by the clock server. All times are integer microseconds.
 * The source carries reserved sentinel values (tpInvalid, durInvalid,
 * usecInvalid) inside plain numeric types; here each is a separate tag.
 */
module ClockTime {

  /** Minimum spacing between two recomputations of offsetMax (500 ms). */
  const RecomputeInterval: int := 500_000

  /** Entries not refreshed within this window are purged (1500 ms). */
  const PurgeWindow: int := 1_500_000

  datatype Option<+T> = None | Some(value: T)

  /** A clock reading in microseconds since the epoch, or the tpInvalid sentinel. */
  datatype Timestamp = Tp(usec: int) | TpInvalid

  /** A signed duration in microseconds, or the durInvalid sentinel. */
  datatype Duration = Dur(usec: int) | DurInvalid

  function Abs(x: int): (r: int)
    ensures r >= 0
    ensures r == x || r == -x
  {
    if x < 0 then -x else x
  }

  /**
   * Integer division by two as C++ does it on int64_t: the quotient is
   * truncated toward zero. Dafny's own `/` rounds toward negative infinity
   * for negative dividends, so it cannot be used directly.
   */
  function HalfTowardZero(x: int): (r: int)
    ensures 2 * Abs(r) <= Abs(x) <= 2 * Abs(r) + 1
    ensures x >= 0 ==> r >= 0
    ensures x <= 0 ==> r <= 0
  {
    if x >= 0 then x / 2 else -((-x) / 2)
  }
}
