/** The server's resource record, Go's time arithmetic it relies on, and
    the conversion to the response form (server/models/resource.go). */
module ResourceModel {
  import opened Types

  /** A `time.Time`, as nanoseconds since the Unix epoch. */
  type Instant = int

  const NanosPerSecond: int := 1_000_000_000
  const NanosPerDay: int := 86_400 * NanosPerSecond

  /** The range of a `time.Duration` (an `int64` count of nanoseconds). */
  const MinDuration: int := -0x8000_0000_0000_0000
  const MaxDuration: int := 0x7FFF_FFFF_FFFF_FFFF

  datatype Resource = Resource(
    id: nat,
    name: string,
    groupName: string,
    expireAt: Instant,
    createdAt: Instant)

  // ---------------------------------------------------------------------
  // Go time arithmetic
  // ---------------------------------------------------------------------

  /** `t.Unix()`: the whole seconds of `t`, rounded toward the past. */
  function Unix(t: Instant): (sec: int)
    ensures sec * NanosPerSecond <= t < (sec + 1) * NanosPerSecond
  {
    t / NanosPerSecond
  }

  /** `time.Unix(sec, 0)`. */
  function FromUnix(sec: int): (t: Instant)
    ensures Unix(t) == sec
    ensures t % NanosPerSecond == 0
  {
    sec * NanosPerSecond
  }

  /** Reading an instant back from its seconds loses exactly the fraction
      of a second. */
  lemma FromUnixOfUnix(t: Instant)
    ensures FromUnix(Unix(t)) <= t < FromUnix(Unix(t)) + NanosPerSecond
    ensures FromUnix(Unix(t)) == t <==> t % NanosPerSecond == 0
  {
  }

  /** `t.Sub(u)`: `t - u`, saturated to the range of a duration. */
  function Sub(t: Instant, u: Instant): (d: int)
    ensures MinDuration <= d <= MaxDuration
    ensures MinDuration <= t - u <= MaxDuration ==> d == t - u
    ensures t - u > MaxDuration ==> d == MaxDuration
    ensures t - u < MinDuration ==> d == MinDuration
  {
    if t - u > MaxDuration then MaxDuration
    else if t - u < MinDuration then MinDuration
    else t - u
  }

  /** `t.AddDate(0, 0, days)` taken in UTC, where every day is 24 hours. */
  function AddDays(t: Instant, days: int): (r: Instant)
    ensures r - t == days * NanosPerDay
  {
    t + days * NanosPerDay
  }

  // ---------------------------------------------------------------------
  // Remaining days and the response
  // ---------------------------------------------------------------------

  /** A duration in whole days, rounded up. */
  function CeilDays(d: int): (days: int)
    ensures (days - 1) * NanosPerDay < d <= days * NanosPerDay
  {
    -((-d) / NanosPerDay)
  }

  /** `math.Ceil(r.ExpireAt.Sub(now).Hours() / 24)`, in exact arithmetic. */
  function RemainingDays(expireAt: Instant, now: Instant): (days: int)
    ensures (days - 1) * NanosPerDay < Sub(expireAt, now) <= days * NanosPerDay
  {
    CeilDays(Sub(expireAt, now))
  }

  /** `ToResponse`, with `now` the clock reading it takes. */
  function ToResponse(r: Resource, now: Instant): (v: ResourceView)
    ensures v.id == r.id && v.name == r.name && v.group == r.groupName
    ensures FromUnix(v.expireAt) <= r.expireAt < FromUnix(v.expireAt) + NanosPerSecond
    ensures FromUnix(v.createdAt) <= r.createdAt < FromUnix(v.createdAt) + NanosPerSecond
    ensures v.remainingDays == RemainingDays(r.expireAt, now)
  {
    ResourceView(r.id, r.name, r.groupName, Unix(r.expireAt), Unix(r.createdAt), RemainingDays(r.expireAt, now))
  }

  /** A resource has no days left exactly when it expires no later than
      now. */
  lemma ExpiredIffNoDaysLeft(expireAt: Instant, now: Instant)
    ensures RemainingDays(expireAt, now) <= 0 <==> expireAt <= now
  {
  }

  /** A whole number of days ahead gives that number of days. */
  lemma WholeDaysExact(k: int, now: Instant)
    requires MinDuration <= k * NanosPerDay <= MaxDuration
    ensures RemainingDays(now + k * NanosPerDay, now) == k
  {
    var days := RemainingDays(now + k * NanosPerDay, now);
    assert (days - 1) * NanosPerDay < k * NanosPerDay <= days * NanosPerDay;
  }

  /** Any part of a day beyond `k` whole days counts as one more day. */
  lemma PartialDayRoundsUp(k: int, rest: int, now: Instant)
    requires 0 < rest < NanosPerDay
    requires MinDuration <= k * NanosPerDay + rest <= MaxDuration
    ensures RemainingDays(now + k * NanosPerDay + rest, now) == k + 1
  {
    var days := RemainingDays(now + k * NanosPerDay + rest, now);
    assert (days - 1) * NanosPerDay < k * NanosPerDay + rest <= days * NanosPerDay;
  }

  /** A later expiry never has fewer days left. */
  lemma RemainingDaysMonotone(e1: Instant, e2: Instant, now: Instant)
    requires e1 <= e2
    ensures RemainingDays(e1, now) <= RemainingDays(e2, now)
  {
    var a := RemainingDays(e1, now);
    var b := RemainingDays(e2, now);
    assert Sub(e1, now) <= Sub(e2, now);
    assert (a - 1) * NanosPerDay < b * NanosPerDay;
  }
}
