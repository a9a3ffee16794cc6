/** The token bucket of the HTTP server (`requestLimiter`). Floating-point numbers are real numbers. */
module RateLimiter {

  function Min(a: real, b: real): real {
    if a <= b then a else b
  }

  function Refilled(burst: real, tokens: real, gain: real): real {
    Min(burst, tokens + gain)
  }

  predicate Admits(burst: real, tokens: real, gain: real) {
    Refilled(burst, tokens, gain) >= 1.0
  }

  function Left(burst: real, tokens: real, gain: real): real {
    if Admits(burst, tokens, gain) then Refilled(burst, tokens, gain) - 1.0 else Refilled(burst, tokens, gain)
  }

  function Gain(rate: real, last: real, now: real): real {
    (now - last) * rate
  }

  class RequestLimiter {
    const rate: real
    const burst: real
    var tokens: real
    var last: real

    constructor (rate: nat, burst: nat, now: real)
      ensures this.rate == rate as real && this.burst == burst as real
      ensures tokens == this.burst && last == now
    {
      this.rate, this.burst := rate as real, burst as real;
      tokens, last := burst as real, now;
    }

    /** `now` was read before the lock was taken, so successive calls may pass readings out of order. */
    method Allow(now: real) returns (admitted: bool)
      modifies this
      ensures admitted <==> Admits(burst, old(tokens), Gain(rate, old(last), now))
      ensures tokens == Left(burst, old(tokens), Gain(rate, old(last), now))
      ensures last == now
    {
      tokens := Min(burst, tokens + Gain(rate, last, now));
      last := now;
      if tokens < 1.0 {
        return false;
      }
      tokens := tokens - 1.0;
      admitted := true;
    }
  }

  /** What each call of a run gains, from the clock readings in the order the calls took the lock. */
  function Gains(rate: real, last: real, readings: seq<real>): (gains: seq<real>)
    ensures |gains| == |readings|
    decreases readings
  {
    if readings == [] then [] else [Gain(rate, last, readings[0])] + Gains(rate, readings[0], readings[1..])
  }

  /** The tokens left after a run of `Allow`. */
  function Run(burst: real, tokens: real, gains: seq<real>): real
    decreases gains
  {
    if gains == [] then tokens else Run(burst, Left(burst, tokens, gains[0]), gains[1..])
  }

  /** The calls of the run that `Allow` admits. */
  function Admitted(burst: real, tokens: real, gains: seq<real>): nat
    decreases gains
  {
    if gains == [] then 0
    else (if Admits(burst, tokens, gains[0]) then 1 else 0) + Admitted(burst, Left(burst, tokens, gains[0]), gains[1..])
  }

  function Sum(gains: seq<real>): real {
    if gains == [] then 0.0 else gains[0] + Sum(gains[1..])
  }

  ghost predicate Nondecreasing(start: real, readings: seq<real>) {
    && (forall i :: 0 <= i < |readings| ==> start <= readings[i])
    && (forall i, j :: 0 <= i < j < |readings| ==> readings[i] <= readings[j])
  }

  // ---------------------------------------------------------------- runs as gains

  lemma {:induction false} TokensInRange(burst: real, tokens: real, gains: seq<real>)
    requires 0.0 <= tokens <= burst
    requires forall i :: 0 <= i < |gains| ==> 0.0 <= gains[i]
    ensures 0.0 <= Run(burst, tokens, gains) <= burst
    decreases gains
  {
    if gains != [] {
      TokensInRange(burst, Left(burst, tokens, gains[0]), gains[1..]);
    }
  }

  /** Every admitted call costs one token, every gain adds at most itself. */
  lemma {:induction false} Conservation(burst: real, tokens: real, gains: seq<real>)
    ensures Admitted(burst, tokens, gains) as real + Run(burst, tokens, gains) <= tokens + Sum(gains)
    decreases gains
  {
    if gains != [] {
      Conservation(burst, Left(burst, tokens, gains[0]), gains[1..]);
    }
  }

  lemma {:induction false} RunSplit(burst: real, tokens: real, gains: seq<real>, k: nat)
    requires k < |gains|
    ensures Run(burst, tokens, gains[..k + 1]) == Left(burst, Run(burst, tokens, gains[..k]), gains[k])
    decreases k
  {
    assert gains[..k + 1][1..] == gains[1..][..k];
    if k == 0 {
      assert gains[..0] == [];
    } else {
      assert gains[..k][1..] == gains[1..][..k - 1];
      RunSplit(burst, Left(burst, tokens, gains[0]), gains[1..], k - 1);
    }
  }

  // ---------------------------------------------------------------- gains from clock readings

  lemma Telescope(rate: real, a: real, b: real, c: real)
    ensures Gain(rate, a, b) + Gain(rate, b, c) == Gain(rate, a, c)
  {
  }

  lemma {:induction false} SumOfGains(rate: real, last: real, readings: seq<real>)
    ensures readings != [] ==> Sum(Gains(rate, last, readings)) == Gain(rate, last, readings[|readings| - 1])
    decreases readings
  {
    if readings != [] {
      SumOfGains(rate, readings[0], readings[1..]);
      Telescope(rate, last, readings[0], readings[|readings| - 1]);
    }
  }

  lemma GainNonNegative(rate: real, last: real, now: real)
    requires rate >= 0.0 && last <= now
    ensures Gain(rate, last, now) >= 0.0
  {
  }

  lemma {:induction false} GainsNonNegative(rate: real, last: real, readings: seq<real>)
    requires rate >= 0.0 && Nondecreasing(last, readings)
    ensures forall i :: 0 <= i < |readings| ==> 0.0 <= Gains(rate, last, readings)[i]
    decreases readings
  {
    if readings != [] {
      GainNonNegative(rate, last, readings[0]);
      GainsNonNegative(rate, readings[0], readings[1..]);
    }
  }

  lemma {:induction false} GainsPrefix(rate: real, last: real, readings: seq<real>, k: nat)
    requires k <= |readings|
    ensures Gains(rate, last, readings)[..k] == Gains(rate, last, readings[..k])
    decreases readings
  {
    if k > 0 {
      GainsPrefix(rate, readings[0], readings[1..], k - 1);
      assert readings[..k][1..] == readings[1..][..k - 1];
    }
  }

  // ---------------------------------------------------------------- main results

  /** With readings in order the level stays between empty and full. */
  lemma TokensStayInRange(rate: real, burst: real, start: real, readings: seq<real>)
    requires rate >= 0.0 && burst >= 0.0 && Nondecreasing(start, readings)
    ensures 0.0 <= Run(burst, burst, Gains(rate, start, readings)) <= burst
  {
    GainsNonNegative(rate, start, readings);
    TokensInRange(burst, burst, Gains(rate, start, readings));
  }

  /**
   Out of order it need not: from a full bucket made at time 0, a call at time 10 and then one that read
   its clock at time 5, before the first took the lock, leave a level of -4.
   */
  lemma TokensCanGoNegative()
    ensures Run(2.0, 2.0, Gains(1.0, 0.0, [10.0, 5.0])) == -4.0
  {
    var gains := Gains(1.0, 0.0, [10.0, 5.0]);
    assert [10.0, 5.0][1..] == [5.0] && [5.0][1..] == [];
    assert gains == [10.0, -5.0];
    assert gains[1..] == [-5.0] && gains[1..][1..] == [];
    assert Left(2.0, 2.0, 10.0) == 1.0 && Left(2.0, 1.0, -5.0) == -4.0;
  }

  predicate InRange(burst: real, level: real) {
    0.0 <= level <= burst
  }

  /** A reading that is behind the one before takes no more than there is. */
  predicate Covers(rate: real, level: real, last: real, now: real) {
    level + (now - last) * rate >= 0.0
  }

  /** A call leaves the level in range exactly when the level covers its reading. */
  lemma CallStaysInRangeExactly(rate: real, burst: real, tokens: real, last: real, now: real)
    requires burst >= 0.0
    ensures InRange(burst, Left(burst, tokens, Gain(rate, last, now))) <==> Covers(rate, tokens, last, now)
  {
  }

  /** The reading before call k, or the time the limiter was made. */
  function Before(start: real, readings: seq<real>, k: nat): real
    requires k <= |readings|
  {
    if k == 0 then start else readings[k - 1]
  }

  lemma {:induction false} GainAt(rate: real, start: real, readings: seq<real>, k: nat)
    requires k < |readings|
    ensures Gains(rate, start, readings)[k] == Gain(rate, Before(start, readings, k), readings[k])
    decreases k
  {
    if k > 0 {
      GainAt(rate, readings[0], readings[1..], k - 1);
      assert Before(readings[0], readings[1..], k - 1) == Before(start, readings, k);
    }
  }

  lemma StepStaysInRangeExactly(rate: real, burst: real, start: real, readings: seq<real>, k: nat)
    requires burst >= 0.0 && k < |readings|
    ensures var gains := Gains(rate, start, readings);
      InRange(burst, Run(burst, burst, gains[..k + 1])) <==>
      Covers(rate, Run(burst, burst, gains[..k]), Before(start, readings, k), readings[k])
  {
    var gains := Gains(rate, start, readings);
    RunSplit(burst, burst, gains, k);
    GainAt(rate, start, readings, k);
    CallStaysInRangeExactly(rate, burst, Run(burst, burst, gains[..k]), Before(start, readings, k), readings[k]);
  }

  /**
   For readings in any order: a new limiter stays between empty and full throughout a run if and only if
   every call's reading is covered by the level it finds, that is, no call reads a clock so far behind the
   call before it that its negative gain exceeds the level.
   */
  lemma TokensStayInRangeExactly(rate: real, burst: real, start: real, readings: seq<real>)
    requires burst >= 0.0
    ensures var gains := Gains(rate, start, readings);
      (forall k :: 0 <= k <= |readings| ==> InRange(burst, Run(burst, burst, gains[..k]))) <==>
      (forall k :: 0 <= k < |readings| ==>
         Covers(rate, Run(burst, burst, gains[..k]), Before(start, readings, k), readings[k]))
  {
    var gains := Gains(rate, start, readings);
    assert gains[..0] == [];
    if forall k :: 0 <= k <= |readings| ==> InRange(burst, Run(burst, burst, gains[..k])) {
      forall k | 0 <= k < |readings|
        ensures Covers(rate, Run(burst, burst, gains[..k]), Before(start, readings, k), readings[k])
      {
        StepStaysInRangeExactly(rate, burst, start, readings, k);
        assert InRange(burst, Run(burst, burst, gains[..k + 1]));
      }
    }
    if forall k :: 0 <= k < |readings| ==> Covers(rate, Run(burst, burst, gains[..k]), Before(start, readings, k), readings[k]) {
      forall k | 0 <= k <= |readings|
        ensures InRange(burst, Run(burst, burst, gains[..k]))
      {
        if k > 0 {
          StepStaysInRangeExactly(rate, burst, start, readings, k - 1);
        }
      }
    }
  }

  /**
   The admission bound survives readings in any order: everything admitted up to and including an
   admitted call k is paid for by the tokens at hand and the time up to that call.
   */
  lemma AdmissionBoundAnyOrder(rate: real, burst: real, tokens: real, last: real, readings: seq<real>, k: nat)
    requires k < |readings|
    requires var gains := Gains(rate, last, readings); Admits(burst, Run(burst, tokens, gains[..k]), gains[k])
    ensures Admitted(burst, tokens, Gains(rate, last, readings[..k + 1])) as real <= tokens + Gain(rate, last, readings[k])
  {
    var gains := Gains(rate, last, readings);
    RunSplit(burst, tokens, gains, k);
    GainsPrefix(rate, last, readings, k + 1);
    Conservation(burst, tokens, gains[..k + 1]);
    SumOfGains(rate, last, readings[..k + 1]);
  }

  /** Only the refilled level matters to a call and to everything after it. */
  lemma RefillFirst(burst: real, tokens: real, gains: seq<real>)
    requires gains != []
    ensures Admitted(burst, tokens, gains) == Admitted(burst, Refilled(burst, tokens, gains[0]), [0.0] + gains[1..])
  {
    var eased := [0.0] + gains[1..];
    assert eased[1..] == gains[1..];
    assert Left(burst, Refilled(burst, tokens, gains[0]), 0.0) == Left(burst, tokens, gains[0]);
  }

  /**
   A run of calls whose readings are in order and whose bucket is in range: from its first call to
   its last, at most the burst plus what the time between them refills.
   */
  lemma AdmissionBound(rate: real, burst: real, tokens: real, last: real, readings: seq<real>)
    requires rate >= 0.0 && 0.0 <= tokens <= burst
    requires readings != [] && Nondecreasing(last, readings)
    ensures Admitted(burst, tokens, Gains(rate, last, readings)) as real
         <= burst + Gain(rate, readings[0], readings[|readings| - 1])
  {
    var gains := Gains(rate, last, readings);
    var level := Refilled(burst, tokens, gains[0]);
    var eased := [0.0] + gains[1..];
    GainsNonNegative(rate, last, readings);
    RefillFirst(burst, tokens, gains);
    Conservation(burst, level, eased);
    TokensInRange(burst, level, eased);
    assert eased[1..] == gains[1..] == Gains(rate, readings[0], readings[1..]);
    SumOfGains(rate, readings[0], readings[1..]);
    if |readings| == 1 {
      assert readings[1..] == [] && eased[1..] == [];
      GainNonNegative(rate, readings[0], readings[0]);
    }
  }

  /**
   A client that waits long enough is never refused: a call 1/rate or more after the previous one
   is admitted, from every level in range, if and only if the burst is at least one.
   */
  lemma PatientCallIsAdmitted(rate: real, burst: real)
    requires rate > 0.0 && burst >= 0.0
    ensures burst >= 1.0 <==>
      (forall tokens, last, now :: 0.0 <= tokens <= burst && Gain(rate, last, now) >= 1.0 ==>
         Admits(burst, tokens, Gain(rate, last, now)))
  {
    if burst < 1.0 {
      var now := 1.0 / rate;
      assert Gain(rate, 0.0, now) >= 1.0;
      assert !Admits(burst, burst, Gain(rate, 0.0, now));
    }
  }

  // ---------------------------------------------------------------- exactly which calls are admitted

  lemma {:induction false} AdmittedSplit(burst: real, tokens: real, gains: seq<real>, k: nat)
    requires k < |gains|
    ensures Admitted(burst, tokens, gains[..k + 1]) ==
      Admitted(burst, tokens, gains[..k]) + if Admits(burst, Run(burst, tokens, gains[..k]), gains[k]) then 1 else 0
    decreases k
  {
    assert gains[..k + 1][1..] == gains[1..][..k];
    if k == 0 {
      assert gains[..0] == [];
    } else {
      assert gains[..k][1..] == gains[1..][..k - 1];
      AdmittedSplit(burst, Left(burst, tokens, gains[0]), gains[1..], k - 1);
    }
  }

  /** `due[k]` is what has come in by call k. */
  ghost predicate Accrues(gains: seq<real>, due: seq<real>) {
    && |due| == |gains|
    && (gains != [] ==> gains[0] == due[0])
    && forall k :: 0 < k < |gains| ==> gains[k] == due[k] - due[k - 1]
  }

  /** What is left at call k of a bucket that was full at call j and has paid for the calls admitted from j on. */
  ghost function AccountSince(burst: real, tokens: real, gains: seq<real>, due: seq<real>, k: nat, j: nat): real
    requires j <= k < |gains| == |due|
  {
    burst + (due[k] - due[j]) - (Admitted(burst, tokens, gains[..k]) - Admitted(burst, tokens, gains[..j])) as real
  }

  /** No account has less than x at call k: neither the one kept since the start, nor one that began full at some call. */
  ghost predicate EveryAccount(burst: real, tokens: real, gains: seq<real>, due: seq<real>, k: nat, x: real)
    requires k < |gains| == |due|
  {
    && tokens + due[k] - Admitted(burst, tokens, gains[..k]) as real >= x
    && forall j :: 0 <= j <= k ==> AccountSince(burst, tokens, gains, due, k, j) >= x
  }

  /** The level a call finds is the least of all accounts. */
  lemma {:induction false} LevelExactly(burst: real, tokens: real, gains: seq<real>, due: seq<real>, k: nat, x: real)
    requires Accrues(gains, due) && k < |gains|
    ensures Refilled(burst, Run(burst, tokens, gains[..k]), gains[k]) >= x <==> EveryAccount(burst, tokens, gains, due, k, x)
    decreases k
  {
    if k == 0 {
      assert gains[..0] == [];
      assert AccountSince(burst, tokens, gains, due, 0, 0) == burst;
    } else {
      var paid := if Admits(burst, Run(burst, tokens, gains[..k - 1]), gains[k - 1]) then 1.0 else 0.0;
      RunSplit(burst, tokens, gains, k - 1);
      AdmittedSplit(burst, tokens, gains, k - 1);
      LevelExactly(burst, tokens, gains, due, k - 1, x - gains[k] + paid);
      AccountsMove(burst, tokens, gains, due, k, x, paid);
      RefillAfterCall(burst, Run(burst, tokens, gains[..k - 1]), gains[k - 1], gains[k], x);
    }
  }

  lemma RefillAfterCall(burst: real, tokens: real, first: real, gain: real, x: real)
    ensures Refilled(burst, Left(burst, tokens, first), gain) >= x <==>
      burst >= x && Refilled(burst, tokens, first) >= x - gain + (if Admits(burst, tokens, first) then 1.0 else 0.0)
  {
  }

  /** From one call to the next every account gains what comes in between them and pays for the earlier call. */
  lemma AccountsMove(burst: real, tokens: real, gains: seq<real>, due: seq<real>, k: nat, x: real, paid: real)
    requires Accrues(gains, due) && 0 < k < |gains|
    requires Admitted(burst, tokens, gains[..k]) as real == Admitted(burst, tokens, gains[..k - 1]) as real + paid
    ensures EveryAccount(burst, tokens, gains, due, k, x) <==>
      burst >= x && EveryAccount(burst, tokens, gains, due, k - 1, x - gains[k] + paid)
  {
    var e, before := k - 1, x - gains[k] + paid;
    forall j | 0 <= j <= e
      ensures AccountSince(burst, tokens, gains, due, k, j) >= x <==> AccountSince(burst, tokens, gains, due, e, j) >= before
    {
    }
    assert AccountSince(burst, tokens, gains, due, k, k) == burst;
  }

  /** With call k, the admissions from call j on are at most the burst and what the time between the two refills. */
  ghost predicate FitsStretch(rate: real, burst: real, tokens: real, gains: seq<real>, readings: seq<real>, k: nat, j: nat)
    requires j <= k < |readings| == |gains|
  {
    (Admitted(burst, tokens, gains[..k]) - Admitted(burst, tokens, gains[..j])) as real + 1.0
      <= burst + (readings[k] - readings[j]) * rate
  }

  /**
   The limiter admits as much as it may. For readings in any order, a call is admitted if and only if with it the
   admissions since the start stay within the first level and the time since, and those of every stretch that begins
   at an earlier call, or is this call alone, within the burst and the time since that call.
   */
  lemma AdmittedExactly(rate: real, burst: real, tokens: real, last: real, readings: seq<real>, k: nat)
    requires k < |readings|
    ensures var gains := Gains(rate, last, readings);
      Admits(burst, Run(burst, tokens, gains[..k]), gains[k]) <==>
        && Admitted(burst, tokens, gains[..k]) as real + 1.0 <= tokens + (readings[k] - last) * rate
        && forall j :: 0 <= j <= k ==> FitsStretch(rate, burst, tokens, gains, readings, k, j)
  {
    var gains := Gains(rate, last, readings);
    var due := seq(|readings|, i requires 0 <= i < |readings| => (readings[i] - last) * rate);
    DueAccrues(rate, last, readings, due);
    LevelExactly(burst, tokens, gains, due, k, 1.0);
    forall j | 0 <= j <= k
      ensures FitsStretch(rate, burst, tokens, gains, readings, k, j) <==> AccountSince(burst, tokens, gains, due, k, j) >= 1.0
    {
      Telescope(rate, last, readings[j], readings[k]);
    }
  }

  lemma DueAccrues(rate: real, last: real, readings: seq<real>, due: seq<real>)
    requires |due| == |readings| && forall i :: 0 <= i < |readings| ==> due[i] == (readings[i] - last) * rate
    ensures Accrues(Gains(rate, last, readings), due)
  {
    forall k | 0 <= k < |readings|
      ensures Gains(rate, last, readings)[k] == due[k] - (if k == 0 then 0.0 else due[k - 1])
    {
      GainAt(rate, last, readings, k);
      if k > 0 {
        Telescope(rate, last, readings[k - 1], readings[k]);
      }
    }
  }
}
