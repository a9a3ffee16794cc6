/**
 Freshness of a Kratos session against `prompt=login` and `max_age`
 (section 3.1.2.1 of OpenID Connect Core 1.0).
 Instants are nanoseconds since the zero `time.Time`, unbounded; a `time.Duration` is a signed
 64-bit count of nanoseconds.
 */
module Freshness {
  import opened Text
  import opened Prompts

  type Time = int

  const ZERO_TIME: Time := 0
  const SECOND: int := 1_000_000_000
  const MIN_DURATION: int := -0x8000_0000_0000_0000
  const MAX_DURATION: int := 0x7FFF_FFFF_FFFF_FFFF

  /** The largest `max_age`, in seconds, that a `time.Duration` can tell from a larger one. */
  const MAX_EXACT_AGE: int := 9_223_372_036

  /** time.Time.Sub: the difference, clamped to what a Duration holds. */
  function Sub(t: Time, u: Time): int {
    if t - u < MIN_DURATION then MIN_DURATION
    else if t - u > MAX_DURATION then MAX_DURATION
    else t - u
  }

  /** The whole seconds of a non-negative age, rounded up. */
  function CeilSeconds(age: int): int
    requires 0 <= age
  {
    age / SECOND + (if age % SECOND != 0 then 1 else 0)
  }

  /** `validateLoginFreshness` accepts. `maxAge` is the request's `max_age`, if it has one. */
  predicate Fresh(prompt: string, maxAge: Option<int>, startedAt: Time, authenticatedAt: Time, now: Time) {
    var login := PromptIncludes(prompt, "login");
    if !login && maxAge.None? then true
    else if authenticatedAt == ZERO_TIME then false
    else
      var age := Sub(now, authenticatedAt);
      if age < 0 then false
      else if login && !(authenticatedAt > startedAt) then false
      else if maxAge.None? then true
      else if maxAge.value < 0 then false
      else if maxAge.value == 0 then authenticatedAt > startedAt
      else CeilSeconds(age) <= maxAge.value
  }

  /** Rounding up compares whole seconds exactly, for a true (unclamped) age. */
  lemma CeilSecondsExact(age: int, limit: int)
    requires 0 <= age
    ensures CeilSeconds(age) <= limit <==> age <= limit * SECOND
  {
    assert age == (age / SECOND) * SECOND + age % SECOND;
    if CeilSeconds(age) <= limit {
      assert age <= CeilSeconds(age) * SECOND <= limit * SECOND;
    } else {
      assert limit + 1 <= CeilSeconds(age);
      assert limit * SECOND <= (CeilSeconds(age) - 1) * SECOND < age;
    }
  }

  /** The `max_age` test against the true elapsed time. */
  predicate WithinMaxAge(maxAge: int, authenticatedAt: Time, now: Time) {
    0 <= now - authenticatedAt <= maxAge * SECOND
  }

  /** A positive `max_age` is enforced exactly, even when the duration is clamped, up to MAX_EXACT_AGE. */
  lemma MaxAgeIsExact(prompt: string, maxAge: int, startedAt: Time, authenticatedAt: Time, now: Time)
    requires 0 < maxAge <= MAX_EXACT_AGE
    ensures Fresh(prompt, Some(maxAge), startedAt, authenticatedAt, now) <==>
         && authenticatedAt != ZERO_TIME
         && WithinMaxAge(maxAge, authenticatedAt, now)
         && (PromptIncludes(prompt, "login") ==> startedAt < authenticatedAt)
  {
    var age := Sub(now, authenticatedAt);
    if 0 <= age {
      CeilSecondsExact(age, maxAge);
    }
  }

  /** One second more and there is a session that is accepted although it is older than `max_age`. */
  lemma MaxAgeExactlyUpToLimit(prompt: string, maxAge: int)
    requires 0 < maxAge
    ensures maxAge <= MAX_EXACT_AGE <==>
      (forall startedAt, authenticatedAt, now ::
         Fresh(prompt, Some(maxAge), startedAt, authenticatedAt, now) ==> WithinMaxAge(maxAge, authenticatedAt, now))
  {
    if maxAge <= MAX_EXACT_AGE {
      forall startedAt, authenticatedAt, now | Fresh(prompt, Some(maxAge), startedAt, authenticatedAt, now)
        ensures WithinMaxAge(maxAge, authenticatedAt, now)
      {
        MaxAgeIsExact(prompt, maxAge, startedAt, authenticatedAt, now);
      }
    } else {
      var now := 1 + (maxAge + 1) * SECOND;
      assert Sub(now, 1) == MAX_DURATION;
      assert Fresh(prompt, Some(maxAge), 0, 1, now);
      assert !WithinMaxAge(maxAge, 1, now);
    }
  }

  /** Forced re-authentication: the user authenticated after the login request was received, and not in the future. */
  lemma ForcedLoginIsRecent(prompt: string, maxAge: Option<int>, startedAt: Time, authenticatedAt: Time, now: Time)
    requires Fresh(prompt, maxAge, startedAt, authenticatedAt, now)
    requires PromptIncludes(prompt, "login") || maxAge == Some(0)
    ensures startedAt < authenticatedAt <= now
  {
    assert Sub(now, authenticatedAt) >= 0;
  }

  /** What a `max_age` enforces: nothing negative, and beyond MAX_EXACT_AGE no bound at all. */
  predicate RecentWithin(maxAge: int, authenticatedAt: Time, now: Time) {
    0 <= maxAge && (0 < maxAge <= MAX_EXACT_AGE ==> now - authenticatedAt <= maxAge * SECOND)
  }

  lemma ClampedIsAlwaysRecent(maxAge: int, authenticatedAt: Time, now: Time)
    requires MAX_EXACT_AGE < maxAge && authenticatedAt <= now
    ensures CeilSeconds(Sub(now, authenticatedAt)) <= maxAge
  {
    CeilSecondsExact(Sub(now, authenticatedAt), maxAge);
  }

  /** Everything the test accepts when it has something to enforce, in terms of true time. */
  lemma FreshMeans(prompt: string, maxAge: Option<int>, startedAt: Time, authenticatedAt: Time, now: Time)
    ensures Fresh(prompt, maxAge, startedAt, authenticatedAt, now) <==>
         || (!PromptIncludes(prompt, "login") && maxAge.None?)
         || (&& authenticatedAt != ZERO_TIME && authenticatedAt <= now
             && (PromptIncludes(prompt, "login") || maxAge == Some(0) ==> startedAt < authenticatedAt)
             && (maxAge.Some? ==> RecentWithin(maxAge.value, authenticatedAt, now)))
  {
    if maxAge.Some? && maxAge.value > 0 {
      if maxAge.value <= MAX_EXACT_AGE {
        MaxAgeIsExact(prompt, maxAge.value, startedAt, authenticatedAt, now);
      } else if authenticatedAt <= now {
        ClampedIsAlwaysRecent(maxAge.value, authenticatedAt, now);
      }
    }
  }
}
