/**
 The refresh-delay arithmetic of scheduleNextUpdate (lines 55-87, identical
 in app.js and js/app.js). From the wall clock's minute and second it computes
 the delay, in milliseconds, to the next automatic refresh, and decides whether
 an extra refresh runs at once. Refreshes land on second 0 of every minute
 that is 1 modulo 10 (:01:00, :11:00, ..., :51:00, then :01:00 of the next hour).
 */
module Schedule {

  /** Date.getMinutes() */
  type Minute = m: int | 0 <= m < 60
  /** Date.getSeconds() */
  type Second = s: int | 0 <= s < 60

  /** The wall-clock reading scheduleNextUpdate takes from new Date(). */
  datatype Clock = Clock(minutes: Minute, seconds: Second)

  /** Math.ceil(m / 10) for a non-negative integer m. */
  function CeilTenth(m: nat): (c: nat)
    ensures m <= 10 * c < m + 10
  {
    (m + 9) / 10
  }

  /** nextUpdateMinutes: the minute of the next refresh, counted from the start
      of the current hour (61 stands for :01 of the next hour). */
  function NextUpdateMinute(m: Minute): (n: nat)
    ensures n % 10 == 1
    ensures m < n <= m + 10
  {
    CeilTenth(m) * 10 + 1
  }

  /** timeUntilNextUpdate, in milliseconds. */
  function Delay(c: Clock): (ms: int)
    ensures 1000 <= ms <= 600000
    ensures ms % 1000 == 0
  {
    var minutesUntilNextUpdate := NextUpdateMinute(c.minutes) - c.minutes;
    minutesUntilNextUpdate * 60 * 1000 - c.seconds * 1000
  }

  /** The instant of the reading, in seconds past the hour. */
  function Now(c: Clock): nat
  {
    c.minutes * 60 + c.seconds
  }

  /** The instant the armed timer fires, in seconds past the same hour. */
  function FireSecond(c: Clock): int
  {
    Now(c) + Delay(c) / 1000
  }

  /** A refresh instant: second 0 of a minute that is 1 modulo 10. */
  predicate IsTarget(t: int)
  {
    t % 60 == 0 && (t / 60) % 10 == 1
  }

  /** The timer fires on a refresh instant, namely ceil(m/10)*600 + 60 seconds
      past the hour, strictly after the reading. */
  lemma FireSecondIsTarget(c: Clock)
    ensures FireSecond(c) == CeilTenth(c.minutes) * 600 + 60
    ensures IsTarget(FireSecond(c))
    ensures FireSecond(c) > Now(c)
  {
  }

  /** No refresh instant lies strictly between the reading and the fire instant. */
  lemma FireSecondIsEarliest(c: Clock, t: int)
    requires IsTarget(t)
    requires t > Now(c)
    ensures FireSecond(c) <= t
  {
  }

  /** The extra refresh scheduleNextUpdate starts on the spot (lines 65-67). */
  predicate ImmediateRefresh(c: Clock)
  {
    c.minutes % 10 == 0 && c.seconds == 0
  }

  /** The extra refresh runs on :x0:00, which is never one of the scheduled
      refresh instants :x1:00. */
  lemma ImmediateRefreshIsOffTarget(c: Clock)
    ensures ImmediateRefresh(c) <==> (Now(c) % 600 == 0)
    ensures ImmediateRefresh(c) ==> !IsTarget(Now(c))
  {
    var m: int, sec: int := c.minutes, c.seconds;
    var q: int, r: int := m / 10, m % 10;
    assert Now(c) == q * 600 + (r * 60 + sec);
    assert 0 <= r * 60 + sec < 600;
    assert Now(c) % 600 == r * 60 + sec;
    if ImmediateRefresh(c) {
      assert Now(c) / 60 == m;
    }
  }

  /** A timer that fires on time reads :x1:00, whereupon the next delay is a
      full ten minutes: the self-rescheduling loop settles into a 10-minute cadence. */
  lemma OnTimeTickRearmsTenMinutes(c: Clock)
    ensures var f := FireSecond(c);
            Delay(Clock((f / 60) % 60, 0)) == 600000
  {
  }

  /** At minute 59 the target is minute 61, i.e. :01 of the next hour. */
  lemma LastMinuteTargetsNextHour(s: Second)
    ensures NextUpdateMinute(59) == 61
    ensures Delay(Clock(59, s)) == 120000 - 1000 * s
  {
  }
}
