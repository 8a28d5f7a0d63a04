/** Time as the source uses it: instants are integer microseconds since the
    epoch, calendar dates are integer day numbers. */
module Clock {
  import Numeric

  const MicrosPerSecond: int := 1_000_000
  const MicrosPerHour: int := 3_600_000_000
  const MicrosPerDay: int := 86_400_000_000

  /** Length of the offline bonus window (three hours). */
  const OfflineWindow: int := 3 * MicrosPerHour

  /** `(now + timedelta(hours=4)).date()`: the day number of the shifted
      instant; `date()` floors, like Dafny's `/` for a positive divisor.
      The shift (4 hours, 14_400_000_000 us) and the day (`MicrosPerDay`)
      are written as literals here so that the arithmetic stays linear. */
  function DateOf(t: int): (d: int)
    ensures d * 86_400_000_000 <= t + 14_400_000_000 < (d + 1) * 86_400_000_000
  {
    (t + 14_400_000_000) / 86_400_000_000
  }

  /** `int((to - from).total_seconds())`: whole seconds elapsed, truncated
      toward zero, negative when `to` is earlier than `from`. */
  function WholeSecondsBetween(from: int, to: int): (n: int)
    ensures from <= to ==> n >= 0 && n * 1_000_000 <= to - from < (n + 1) * 1_000_000
    ensures to < from ==> n <= 0 && (n - 1) * 1_000_000 < to - from <= n * 1_000_000
  {
    Numeric.TruncDiv(to - from, 1_000_000)
  }

  /** Measured backwards, an interval gives the same whole seconds with the
      sign flipped: truncation rounds both toward zero. */
  lemma SecondsBetweenReversed(from: int, to: int)
    ensures WholeSecondsBetween(to, from) == -WholeSecondsBetween(from, to)
  {
    Numeric.TruncDivNegate(to - from, 1_000_000);
  }

  /** An instant one day later falls on the next date. */
  lemma NextDate(t: int)
    ensures DateOf(t + MicrosPerDay) == DateOf(t) + 1
  {
  }

  /** Collecting at an intermediate instant never yields more whole seconds
      than collecting once: truncation can only lose the fractions. */
  lemma {:induction false} SplitSecondsNeverExceed(a: int, b: int, c: int)
    requires a <= b <= c
    ensures WholeSecondsBetween(a, b) + WholeSecondsBetween(b, c) <= WholeSecondsBetween(a, c)
  {
  }
}
