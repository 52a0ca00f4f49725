/** Instants are milliseconds since the epoch. */
module Clock {
  /** Whole seconds between two instants, rounded half up, never negative. */
  function ElapsedSeconds(start: int, end: int): (n: nat)
    ensures start <= end ==> end - start - 500 < 1000 * n <= end - start + 500
    ensures end < start - 500 ==> n == 0
  {
    if end - start + 500 < 0 then 0 else (end - start + 500) / 1000
  }
}
