/** When the supplier admin asks its pull suppliers again: every cycle, or, if the retry
    period is longer than a cycle, when a deadline has passed, which then moves on. */
module NextPull {

  const THOUSAND := 1000
  const MILLION := 1_000_000
  const BILLION := 1_000_000_000

  /** pair<unsigned long, unsigned long>: seconds and nanoseconds. */
  datatype Time = Time(sec: nat, nsec: nat)

  predicate TimeOk(t: Time) {
    t.nsec < BILLION
  }

  function Total(t: Time): nat {
    t.sec * BILLION + t.nsec
  }

  /** The order of pairs. */
  predicate AtLeast(a: Time, b: Time) {
    a.sec > b.sec || (a.sec == b.sec && a.nsec >= b.nsec)
  }

  lemma PairOrderIsTimeOrder(a: Time, b: Time)
    requires TimeOk(a) && TimeOk(b)
    ensures AtLeast(a, b) <==> Total(a) >= Total(b)
  {
    if a.sec > b.sec {
      assert a.sec * BILLION >= (b.sec + 1) * BILLION;
    } else if a.sec < b.sec {
      assert b.sec * BILLION >= (a.sec + 1) * BILLION;
    }
  }

  function Multiple(k: nat, period: nat): (m: nat) {
    if k == 0 then 0 else Multiple(k - 1, period) + period
  }

  lemma {:induction false} MultipleIsProduct(k: nat, period: nat)
    ensures Multiple(k, period) == k * period
  {
    if k > 0 {
      MultipleIsProduct(k - 1, period);
    }
  }

  lemma {:induction false} MultipleGrows(j: nat, k: nat, period: nat)
    requires j <= k
    ensures Multiple(j, period) <= Multiple(k, period)
  {
    if j < k {
      MultipleGrows(j, k - 1, period);
    }
  }

  lemma {:induction false} MultipleSum(j: nat, k: nat, period: nat)
    ensures Multiple(j + k, period) == Multiple(j, period) + Multiple(k, period)
  {
    if k > 0 {
      assert j + k - 1 == j + (k - 1);
      MultipleSum(j, k - 1, period);
    }
  }

  /** The body of the loop: one period, given in milliseconds, is added. */
  function AddPeriod(t: Time, p: nat): (r: Time) {
    var nsec := t.nsec + p % THOUSAND * MILLION;
    Time(t.sec + p / THOUSAND + nsec / BILLION, nsec % BILLION)
  }

  lemma AddPeriodAdds(t: Time, p: nat)
    ensures TimeOk(AddPeriod(t, p)) && Total(AddPeriod(t, p)) == Total(t) + p * MILLION
    ensures AddPeriod(t, p).sec >= t.sec
  {
    var nsec := t.nsec + p % THOUSAND * MILLION;
    assert nsec == nsec / BILLION * BILLION + nsec % BILLION;
    assert p == p / THOUSAND * THOUSAND + p % THOUSAND;
  }

  /** `after` is `before` moved on by the least positive number of periods that passes `now`. */
  ghost predicate MovedPast(before: Time, after: Time, now: Time, p: nat, k: nat) {
    && k > 0 && Total(after) == Total(before) + Multiple(k, p * MILLION)
    && Total(after) > Total(now) && Total(before) + Multiple(k - 1, p * MILLION) <= Total(now)
  }

  /** No smaller positive number of periods would do. */
  lemma MovedByTheLeast(before: Time, after: Time, now: Time, p: nat, k: nat, j: nat)
    requires MovedPast(before, after, now, p, k)
    ensures Total(before) + j * (p * MILLION) > Total(now) <==> j >= k
  {
    MultipleIsProduct(j, p * MILLION);
    if j >= k {
      MultipleGrows(k, j, p * MILLION);
    } else {
      MultipleGrows(j, k - 1, p * MILLION);
    }
  }

  /** Without a period the loop would not get anywhere. */
  lemma ZeroPeriodStays(t: Time)
    requires TimeOk(t)
    ensures AddPeriod(t, 0) == t
  {
  }

  class PullTimer {
    const pullRetryPeriodMs: nat
    const cyclePeriodNs: nat
    ghost const start: Time
    var nextPull: Time
    ghost var laps: nat

    /** The deadline is set only if there is a positive period, and it stays on the grid of
        periods after the start. */
    ghost predicate Valid()
      reads this
    {
      && TimeOk(nextPull)
      && (nextPull.sec != 0 ==>
          && pullRetryPeriodMs > 0
          && Total(nextPull) == Total(start) + Multiple(laps, pullRetryPeriodMs * MILLION))
    }

    /** The constructor's guard: set the deadline only if the cycle is shorter than the
        retry period. */
    constructor (pullRetryPeriodMs: nat, cyclePeriodNs: nat, now: Time)
      requires TimeOk(now)
      ensures Valid() && this.pullRetryPeriodMs == pullRetryPeriodMs && this.cyclePeriodNs == cyclePeriodNs
      ensures nextPull == if pullRetryPeriodMs > cyclePeriodNs / MILLION then now else Time(0, 0)
    {
      this.pullRetryPeriodMs, this.cyclePeriodNs := pullRetryPeriodMs, cyclePeriodNs;
      start, laps, nextPull := now, 0, Time(0, 0);
      new;
      if pullRetryPeriodMs > cyclePeriodNs / MILLION {
        nextPull := now;
      }
    }

    /** The decision in collect(): is it time to trigger requests? */
    method Due(now: Time) returns (due: bool, ghost k: nat)
      requires Valid() && TimeOk(now)
      modifies this`nextPull, this`laps
      ensures Valid()
      ensures due <==> old(nextPull).sec == 0 || Total(now) >= Total(old(nextPull))
      ensures old(nextPull).sec == 0 || !due ==> nextPull == old(nextPull)
      ensures due && old(nextPull).sec != 0 ==>
        MovedPast(old(nextPull), nextPull, now, pullRetryPeriodMs, k) && nextPull.sec != 0
    {
      due, k := false, 0;
      if nextPull.sec == 0 {
        due := true;
      } else {
        PairOrderIsTimeOrder(now, nextPull);
        if AtLeast(now, nextPull) {
          due := true;
          k := MoveOn(now);
        }
      }
    }

    /** The do-while loop. */
    method MoveOn(now: Time) returns (ghost k: nat)
      requires Valid() && TimeOk(now) && nextPull.sec != 0 && Total(now) >= Total(nextPull)
      modifies this`nextPull, this`laps
      ensures Valid() && nextPull.sec != 0
      ensures MovedPast(old(nextPull), nextPull, now, pullRetryPeriodMs, k)
    {
      var p := pullRetryPeriodMs;
      k := 0;
      while true
        invariant TimeOk(nextPull) && nextPull.sec != 0 && laps == old(laps)
        invariant Total(nextPull) == Total(old(nextPull)) + Multiple(k, p * MILLION)
        invariant Total(nextPull) <= Total(now)
        decreases Total(now) - Total(nextPull)
      {
        AddPeriodAdds(nextPull, p);
        var nsec := nextPull.nsec + p % THOUSAND * MILLION;
        nextPull := Time(nextPull.sec + p / THOUSAND + nsec / BILLION, nsec % BILLION);
        k := k + 1;
        PairOrderIsTimeOrder(now, nextPull);
        if !AtLeast(now, nextPull) {
          break;
        }
      }
      MultipleSum(laps, k, p * MILLION);
      laps := laps + k;
    }
  }
}
