/** The token bucket of the request scheduler (agently/utils/RequestScheduler.py:46-63). */
module TokenBucket {

  /** One call: the clock when it got the lock, and the clock when its sleep, if any, was over. */
  datatype Call = Call(now: real, woken: real)

  function Max(a: real, b: real): real { if a >= b then a else b }

  class Bucket {
    const minInterval: real
    var nextAllowedAt: real

    constructor (ratePerSecond: real)
      ensures ratePerSecond > 0.0 ==> minInterval * ratePerSecond == 1.0 && minInterval > 0.0
      ensures ratePerSecond <= 0.0 ==> minInterval == 0.0
      ensures nextAllowedAt == 0.0
    {
      minInterval := if ratePerSecond > 0.0 then 1.0 / ratePerSecond else 0.0;
      nextAllowedAt := 0.0;
    }

    /** `call.woken` is only looked at when the bucket sleeps; a sleep lasts at least as long as it was asked to. */
    method Acquire(call: Call) returns (granted: real)
      requires SleepsLongEnough(nextAllowedAt, call)
      modifies this
      ensures minInterval <= 0.0 ==> granted == call.now && nextAllowedAt == old(nextAllowedAt)
      ensures minInterval > 0.0 ==>
        granted == GrantTime(old(nextAllowedAt), call)
          && nextAllowedAt == NextAllowed(old(nextAllowedAt), call, minInterval)
    {
      var now := call.now;
      if minInterval <= 0.0 { return now; }
      var wait := nextAllowedAt - now;
      if wait > 0.0 { now := call.woken; }
      nextAllowedAt := Max(now, nextAllowedAt) + minInterval;
      granted := now;
    }
  }

  predicate SleepsLongEnough(next: real, call: Call) {
    next - call.now > 0.0 ==> call.woken - call.now >= next - call.now
  }

  function GrantTime(next: real, call: Call): real { if next - call.now > 0.0 then call.woken else call.now }

  function NextAllowed(next: real, call: Call, interval: real): real { Max(GrantTime(next, call), next) + interval }

  /** What `next` has become after some calls. */
  function NextAfter(next: real, calls: seq<Call>, interval: real): real {
    if calls == [] then next
    else NextAllowed(NextAfter(next, calls[..|calls| - 1], interval), calls[|calls| - 1], interval)
  }

  /** The grant times of a run of calls, one after the other. */
  function Grants(next: real, calls: seq<Call>, interval: real): (r: seq<real>)
    ensures |r| == |calls|
  {
    if calls == [] then []
    else
      var before := calls[..|calls| - 1];
      Grants(next, before, interval) + [GrantTime(NextAfter(next, before, interval), calls[|calls| - 1])]
  }

  /** Every sleep of the run lasts at least as long as it was asked to. */
  predicate SleepsRun(next: real, calls: seq<Call>, interval: real) {
    forall i :: 0 <= i < |calls| ==> SleepsLongEnough(NextAfter(next, calls[..i], interval), calls[i])
  }

  lemma Before(next: real, calls: seq<Call>, interval: real)
    requires SleepsRun(next, calls, interval) && calls != []
    ensures SleepsRun(next, calls[..|calls| - 1], interval)
    ensures SleepsLongEnough(NextAfter(next, calls[..|calls| - 1], interval), calls[|calls| - 1])
  {
    var before := calls[..|calls| - 1];
    forall i | 0 <= i < |before| ensures SleepsLongEnough(NextAfter(next, before[..i], interval), before[i]) {
      assert before[..i] == calls[..i] && before[i] == calls[i];
    }
  }

  /** The next grant is allowed exactly one interval after the last. */
  lemma NextIsLastPlusInterval(next: real, calls: seq<Call>, interval: real)
    requires interval > 0.0 && calls != [] && SleepsRun(next, calls, interval)
    ensures NextAfter(next, calls, interval) == Grants(next, calls, interval)[|calls| - 1] + interval
  {
    Before(next, calls, interval);
  }

  /** The bucket enforces its rate: grants `j - i` calls apart are at least `j - i` intervals apart. */
  lemma {:induction false} GrantsAreSpaced(next: real, calls: seq<Call>, interval: real, i: nat, j: nat)
    requires interval > 0.0 && SleepsRun(next, calls, interval) && i <= j < |calls|
    ensures Grants(next, calls, interval)[j] - Grants(next, calls, interval)[i] >= (j - i) as real * interval
    decreases |calls|, j
  {
    hide *;
    var before := calls[..|calls| - 1];
    Before(next, calls, interval);
    GrantsLast(next, calls, interval);
    if j < |calls| - 1 {
      GrantsAreSpaced(next, before, interval, i, j);
    } else if i < j {
      GrantsAreSpaced(next, before, interval, i, j - 1);
      NextIsLastPlusInterval(next, before, interval);
      OneMore(j - i, interval);
    } else {
      OneMore(0, interval);
    }
  }

  lemma OneMore(n: nat, interval: real)
    ensures n as real * interval == if n == 0 then 0.0 else (n - 1) as real * interval + interval
  {
  }

  lemma GrantsLast(next: real, calls: seq<Call>, interval: real)
    requires calls != [] && SleepsRun(next, calls, interval)
    ensures var before, t := calls[..|calls| - 1], Grants(next, calls, interval);
            t == Grants(next, before, interval) + [t[|calls| - 1]]
              && t[|calls| - 1] >= NextAfter(next, before, interval)
  {
    Before(next, calls, interval);
  }

  /** A window of length `w` holds at most `floor(w * rate) + 1` grants. */
  lemma WindowHoldsRate(next: real, calls: seq<Call>, rate: real, start: real, w: real, i: nat, j: nat)
    requires rate > 0.0 && SleepsRun(next, calls, 1.0 / rate) && i <= j < |calls|
    requires start <= Grants(next, calls, 1.0 / rate)[i] && Grants(next, calls, 1.0 / rate)[j] <= start + w
    ensures j - i + 1 <= (w * rate).Floor + 1
  {
    hide *;
    var interval := 1.0 / rate;
    GrantsAreSpaced(next, calls, interval, i, j);
    Scaled((j - i) as real, interval, rate, w);
  }

  lemma Scaled(n: real, interval: real, rate: real, w: real)
    requires rate > 0.0 && interval == 1.0 / rate && n * interval <= w
    ensures n <= w * rate
  {
    assert interval * rate == 1.0;
    assert (n * interval) * rate <= w * rate;
    assert (n * interval) * rate == n * (interval * rate);
  }

  /** No call waits longer than it must: with exact sleeps a grant is at the call, or one interval after the last. */
  lemma GrantsAreGreedy(next: real, calls: seq<Call>, interval: real)
    requires interval > 0.0 && |calls| > 1 && SleepsRun(next, calls, interval)
    requires var last := calls[|calls| - 1];
      last.woken == Max(last.now, NextAfter(next, calls[..|calls| - 1], interval))
    ensures var t := Grants(next, calls, interval);
            t[|calls| - 1] == Max(calls[|calls| - 1].now, t[|calls| - 2] + interval)
  {
    Before(next, calls, interval);
    NextIsLastPlusInterval(next, calls[..|calls| - 1], interval);
  }

  /** One grant after the other through the class, with the clock readings given in advance. */
  method AcquireAll(ratePerSecond: real, calls: seq<Call>) returns (grants: seq<real>)
    requires ratePerSecond > 0.0 && SleepsRun(0.0, calls, 1.0 / ratePerSecond)
    ensures grants == Grants(0.0, calls, 1.0 / ratePerSecond)
  {
    var bucket := new Bucket(ratePerSecond);
    var interval := 1.0 / ratePerSecond;
    assert bucket.minInterval == interval by { Inverse(bucket.minInterval, ratePerSecond); }
    grants := [];
    for n := 0 to |calls|
      invariant bucket.minInterval == interval && bucket.nextAllowedAt == NextAfter(0.0, calls[..n], interval)
      invariant grants == Grants(0.0, calls[..n], interval)
    {
      assert calls[..n + 1][..n] == calls[..n];
      var t := bucket.Acquire(calls[n]);
      grants := grants + [t];
    }
    assert calls[..|calls|] == calls;
  }

  lemma Inverse(a: real, rate: real)
    requires rate > 0.0 && a * rate == 1.0
    ensures a == 1.0 / rate
  {
  }
}
