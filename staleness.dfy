/** When a file counts as inactive: it has not been accessed for at least the
    threshold, a whole number of 30-day months expressed in seconds. */
module Staleness {

  /** Seconds in the 30-day month the cleaner uses. */
  const SecondsPerMonth := 30 * 24 * 60 * 60

  /** `months_threshold * 30 * 24 * 60 * 60`. */
  function ThresholdSeconds(months: int): int {
    months * SecondsPerMonth
  }

  /** The default of three months is 7,776,000 seconds. */
  lemma DefaultThreshold()
    ensures ThresholdSeconds(3) == 7776000
  {
  }

  /** More months never give a shorter threshold. */
  lemma ThresholdMonotone(m: int, m': int)
    requires m <= m'
    ensures ThresholdSeconds(m) <= ThresholdSeconds(m')
  {
  }

  /** `file_has_expired`: at least `threshold` seconds since the last access. */
  predicate Expired(now: int, atime: int, threshold: int) {
    now - atime >= threshold
  }

  /** A file inactive at one threshold is inactive at every smaller one. */
  lemma ExpiredAtSmallerThreshold(now: int, atime: int, t: int, t': int)
    requires Expired(now, atime, t) && t' <= t
    ensures Expired(now, atime, t')
  {
  }

  /** A file inactive now stays inactive later, while it is not accessed. */
  lemma ExpiredStaysExpired(now: int, now': int, atime: int, t: int)
    requires Expired(now, atime, t) && now <= now'
    ensures Expired(now', atime, t)
  {
  }
}
