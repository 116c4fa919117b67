/** The fixed-window rate limiter. Times are nanoseconds of a monotone clock. */
module RateLimit {
  import opened Units

  const SECOND: nat := 1_000_000_000

  const WINDOW: nat := 60 * SECOND

  datatype Bucket = Bucket(count: nat, windowStart: nat)

  datatype Verdict = Allowed | Rejected(retryAfter: nat)

  function Elapsed(b: Bucket, now: nat): nat {
    if now < b.windowStart then 0 else now - b.windowStart
  }

  /** Seconds until the window resets, rounded down, but at least one. */
  function RetryAfter(b: Bucket, now: nat): nat {
    var left := if Elapsed(b, now) >= WINDOW then 0 else WINDOW - Elapsed(b, now);
    if left / SECOND < 1 then 1 else left / SECOND
  }

  /** One request against a key's bucket: the new bucket and the answer. A limit of 0 disables the limiter. */
  function Decide(b: Option<Bucket>, max: nat, now: nat): (Option<Bucket>, Verdict) {
    if max == 0 then (b, Allowed) else
      var bucket := if b.Some? then b.value else Bucket(0, now);
      if Elapsed(bucket, now) >= WINDOW then (Some(Bucket(1, now)), Allowed)
      else if bucket.count >= max then (Some(bucket), Rejected(RetryAfter(bucket, now)))
      else (Some(Bucket(bucket.count + 1, bucket.windowStart)), Allowed)
  }

  function BucketOf(state: map<string, Bucket>, key: string): Option<Bucket> {
    if key in state then Some(state[key]) else None
  }

  class RateLimiter {
    var state: map<string, Bucket>
    const maxPerWindow: nat

    constructor (maxPerMinute: nat)
      ensures state == map[] && maxPerWindow == maxPerMinute
    {
      state := map[];
      maxPerWindow := maxPerMinute;
    }

    /** The key's own bucket decides and is the only one that changes. */
    method Check(key: string, now: nat) returns (r: Verdict)
      modifies this
      ensures (BucketOf(state, key), r) == Decide(old(BucketOf(state, key)), maxPerWindow, now)
      ensures forall other :: other != key ==> BucketOf(state, other) == old(BucketOf(state, other))
    {
      if maxPerWindow == 0 {
        return Allowed;
      }
      if key !in state {
        state := state[key := Bucket(0, now)];
      }
      var elapsed := Elapsed(state[key], now);
      if elapsed >= WINDOW {
        state := state[key := Bucket(1, now)];
        return Allowed;
      }
      if state[key].count >= maxPerWindow {
        return Rejected(RetryAfter(state[key], now));
      }
      state := state[key := Bucket(state[key].count + 1, state[key].windowStart)];
      r := Allowed;
    }

    /** Serving a trace of requests in order. */
    method CheckAll(trace: seq<Request>) returns (rs: seq<Verdict>)
      requires state == map[]
      modifies this
      ensures |rs| == |trace|
      ensures forall key :: Pick(trace, rs, key) == KeyVerdicts(None, maxPerWindow, TimesOf(trace, key))
    {
      rs := [];
      for i := 0 to |trace|
        invariant |rs| == i
        invariant forall key :: BucketOf(state, key) == KeyState(None, maxPerWindow, TimesOf(trace[..i], key))
        invariant forall key :: Pick(trace[..i], rs, key) == KeyVerdicts(None, maxPerWindow, TimesOf(trace[..i], key))
      {
        ghost var before, seen := rs, trace[..i];
        var r := Check(trace[i].key, trace[i].at);
        rs := rs + [r];
        assert trace[..i + 1] == seen + [trace[i]];
        forall key
          ensures BucketOf(state, key) == KeyState(None, maxPerWindow, TimesOf(seen + [trace[i]], key))
          ensures Pick(seen + [trace[i]], rs, key) == KeyVerdicts(None, maxPerWindow, TimesOf(seen + [trace[i]], key))
        {
          TimesAppend(seen, trace[i], key);
          PickAppend(seen, before, trace[i], r, key);
          VerdictsAppend(None, maxPerWindow, TimesOf(seen, key), trace[i].at);
        }
      }
      assert trace[..|trace|] == trace;
    }
  }

  // ---------------------------------------------------------------------------
  // Traces
  // ---------------------------------------------------------------------------

  datatype Request = Request(key: string, at: nat)

  /** When a key's own requests come. */
  function TimesOf(trace: seq<Request>, key: string): seq<nat> {
    if trace == [] then []
    else if trace[0].key == key then [trace[0].at] + TimesOf(trace[1..], key)
    else TimesOf(trace[1..], key)
  }

  /** The answers a key's own requests got. */
  function Pick(trace: seq<Request>, rs: seq<Verdict>, key: string): seq<Verdict>
    requires |rs| == |trace|
  {
    if trace == [] then []
    else if trace[0].key == key then [rs[0]] + Pick(trace[1..], rs[1..], key)
    else Pick(trace[1..], rs[1..], key)
  }

  /** The bucket and the answers when one key's requests are served alone. */
  function KeyState(b: Option<Bucket>, max: nat, times: seq<nat>): Option<Bucket>
    decreases |times|
  {
    if times == [] then b else KeyState(Decide(b, max, times[0]).0, max, times[1..])
  }

  function KeyVerdicts(b: Option<Bucket>, max: nat, times: seq<nat>): (rs: seq<Verdict>)
    ensures |rs| == |times|
    decreases |times|
  {
    if times == [] then [] else
      [Decide(b, max, times[0]).1] + KeyVerdicts(Decide(b, max, times[0]).0, max, times[1..])
  }

  lemma {:induction false} TimesAppend(trace: seq<Request>, q: Request, key: string)
    ensures TimesOf(trace + [q], key) == if q.key == key then TimesOf(trace, key) + [q.at] else TimesOf(trace, key)
    decreases |trace|
  {
    if trace == [] {
      assert trace + [q] == [q];
    } else {
      TimesAppend(trace[1..], q, key);
      assert (trace + [q])[1..] == trace[1..] + [q] && (trace + [q])[0] == trace[0];
    }
  }

  lemma {:induction false} PickAppend(trace: seq<Request>, rs: seq<Verdict>, q: Request, r: Verdict, key: string)
    requires |rs| == |trace|
    ensures Pick(trace + [q], rs + [r], key) == if q.key == key then Pick(trace, rs, key) + [r] else Pick(trace, rs, key)
    decreases |trace|
  {
    if trace == [] {
      assert trace + [q] == [q] && rs + [r] == [r];
    } else {
      PickAppend(trace[1..], rs[1..], q, r, key);
      assert (trace + [q])[1..] == trace[1..] + [q] && (rs + [r])[1..] == rs[1..] + [r];
    }
  }

  lemma {:induction false} VerdictsAppend(b: Option<Bucket>, max: nat, times: seq<nat>, t: nat)
    ensures KeyState(b, max, times + [t]) == Decide(KeyState(b, max, times), max, t).0
    ensures KeyVerdicts(b, max, times + [t]) == KeyVerdicts(b, max, times) + [Decide(KeyState(b, max, times), max, t).1]
    decreases |times|
  {
    if times == [] {
      assert times + [t] == [t];
    } else {
      VerdictsAppend(Decide(b, max, times[0]).0, max, times[1..], t);
      assert (times + [t])[1..] == times[1..] + [t];
    }
  }

  ghost predicate Monotone(times: seq<nat>) {
    forall i, j :: 0 <= i <= j < |times| ==> times[i] <= times[j]
  }

  // ---------------------------------------------------------------------------
  // How much is admitted
  // ---------------------------------------------------------------------------

  /** The requests admitted at a time in [lo, hi). */
  function AdmittedIn(times: seq<nat>, rs: seq<Verdict>, lo: int, hi: int): nat
    requires |rs| == |times|
  {
    if times == [] then 0
    else (if rs[0].Allowed? && lo <= times[0] < hi then 1 else 0) + AdmittedIn(times[1..], rs[1..], lo, hi)
  }

  /** The most that windows opened one after the other can admit in a stretch of time. */
  function Budget(max: nat, length: int): nat
    decreases length
  {
    if length <= 0 then 0 else max + Budget(max, length - WINDOW)
  }

  lemma {:induction false} BudgetGrows(max: nat, a: int, b: int)
    requires a <= b
    ensures Budget(max, a) <= Budget(max, b)
    decreases b
  {
    if a > 0 {
      BudgetGrows(max, a - WINDOW, b - WINDOW);
    }
  }

  lemma {:induction false} BudgetOfWindows(max: nat, k: nat)
    ensures Budget(max, k * WINDOW) == k * max
  {
    if k > 0 {
      BudgetOfWindows(max, k - 1);
      assert k * WINDOW - WINDOW == (k - 1) * WINDOW;
      assert k * max == max + (k - 1) * max;
    }
  }

  lemma {:induction false} NoneAdmittedLate(times: seq<nat>, rs: seq<Verdict>, lo: int, hi: int)
    requires |rs| == |times| && forall i :: 0 <= i < |times| ==> hi <= times[i]
    ensures AdmittedIn(times, rs, lo, hi) == 0
  {
    if times != [] {
      NoneAdmittedLate(times[1..], rs[1..], lo, hi);
    }
  }

  /** A bucket in use has admitted between 1 and max requests. */
  ghost predicate InUse(b: Option<Bucket>, max: nat) {
    b.Some? ==> 1 <= b.value.count <= max
  }

  /** From a bucket in use, the rest of its window and fresh windows after it are all there is. */
  lemma {:induction false} AdmittedAfter(b: Bucket, max: nat, times: seq<nat>, lo: int, hi: int)
    requires InUse(Some(b), max) && Monotone(times) && (times != [] ==> b.windowStart <= times[0])
    ensures AdmittedIn(times, KeyVerdicts(Some(b), max, times), lo, hi)
         <= (max - b.count) + Budget(max, hi - b.windowStart - WINDOW)
    decreases |times|
  {
    if times != [] {
      var t, rest := times[0], times[1..];
      var b' := Decide(Some(b), max, t).0.value;
      if t >= hi {
        NoneAdmittedLate(times, KeyVerdicts(Some(b), max, times), lo, hi);
      } else {
        AdmittedAfter(b', max, rest, lo, hi);
        if t - b.windowStart >= WINDOW {
          BudgetGrows(max, hi - t, hi - b.windowStart - WINDOW);
        }
      }
    }
  }

  /** Any half-open interval of k windows admits fewer than (k + 1) * max requests of one key. */
  lemma {:induction false} IntervalBound(b: Option<Bucket>, max: nat, times: seq<nat>, lo: nat, k: nat)
    requires max >= 1 && InUse(b, max) && Monotone(times)
    requires b.Some? && times != [] ==> b.value.windowStart <= times[0]
    ensures AdmittedIn(times, KeyVerdicts(b, max, times), lo, lo + k * WINDOW) < (k + 1) * max
    decreases |times|
  {
    var hi := lo + k * WINDOW;
    assert (k + 1) * max == k * max + max;
    BudgetOfWindows(max, k);
    if times != [] {
      var t, rest := times[0], times[1..];
      var (b', r) := Decide(b, max, t);
      if t < lo {
        IntervalBound(b', max, rest, lo, k);
      } else {
        AdmittedAfter(b'.value, max, rest, lo, hi);
        if t < hi {
          FirstInInterval(b, max, t, lo, k);
        } else {
          NoneAdmittedLate(times, KeyVerdicts(b, max, times), lo, hi);
        }
      }
    }
  }

  /** The first request inside the interval, together with everything its bucket allows afterwards. */
  lemma FirstInInterval(b: Option<Bucket>, max: nat, t: nat, lo: nat, k: nat)
    requires max >= 1 && InUse(b, max) && (b.Some? ==> b.value.windowStart <= t)
    requires lo <= t < lo + k * WINDOW
    ensures var (b', r) := Decide(b, max, t);
            b'.Some? && b'.value.count <= max
            && (if r.Allowed? then 1 else 0) + (max - b'.value.count)
               + Budget(max, lo + k * WINDOW - b'.value.windowStart - WINDOW) < (k + 1) * max
  {
    var hi := lo + k * WINDOW;
    var (b', r) := Decide(b, max, t);
    BudgetOfWindows(max, k);
    assert (k + 1) * max == k * max + max;
    if b'.value.windowStart == t {
      assert Budget(max, hi - t) == max + Budget(max, hi - t - WINDOW);
      BudgetGrows(max, hi - t, k * WINDOW);
    } else {
      BudgetGrows(max, hi - b'.value.windowStart - WINDOW, k * WINDOW);
    }
  }

  // ---------------------------------------------------------------------------
  // The bound is attained
  // ---------------------------------------------------------------------------

  function Admitted(b: Option<Bucket>, max: nat, times: seq<nat>, lo: int, hi: int): nat {
    AdmittedIn(times, KeyVerdicts(b, max, times), lo, hi)
  }

  lemma AdmittedCons(b: Option<Bucket>, max: nat, t: nat, rest: seq<nat>, lo: int, hi: int)
    ensures var here := if Decide(b, max, t).1.Allowed? && lo <= t < hi then 1 else 0;
            Admitted(b, max, [t] + rest, lo, hi) == here + Admitted(Decide(b, max, t).0, max, rest, lo, hi)
  {
  }

  /** `n` requests at the same time, and then others. */
  function Burst(t: nat, n: nat, rest: seq<nat>): seq<nat> {
    if n == 0 then rest else [t] + Burst(t, n - 1, rest)
  }

  lemma {:induction false} BurstIsAdmitted(b: Bucket, max: nat, t: nat, n: nat, rest: seq<nat>, lo: int, hi: int)
    requires max >= 1 && b.count + n <= max && b.windowStart <= t < b.windowStart + WINDOW && lo <= t < hi
    ensures Admitted(Some(b), max, Burst(t, n, rest), lo, hi)
         == n + Admitted(Some(Bucket(b.count + n, b.windowStart)), max, rest, lo, hi)
    decreases n
  {
    hide Admitted;
    if n > 0 {
      AdmittedCons(Some(b), max, t, Burst(t, n - 1, rest), lo, hi);
      BurstIsAdmitted(Bucket(b.count + 1, b.windowStart), max, t, n - 1, rest, lo, hi);
    }
  }

  /** `k` windows filled at their start, the first one starting at `from`. */
  function FullWindows(from: nat, k: nat, max: nat): seq<nat>
    decreases k
  {
    if k == 0 then [] else Burst(from, max, FullWindows(from + WINDOW, k - 1, max))
  }

  lemma {:induction false} FullWindowsAreAdmitted(b: Bucket, max: nat, from: nat, k: nat, lo: int, hi: int)
    requires max >= 1 && b.windowStart + WINDOW <= from && lo <= from
    requires k >= 1 ==> from + (k - 1) * WINDOW < hi
    ensures Admitted(Some(b), max, FullWindows(from, k, max), lo, hi) == k * max
    decreases k
  {
    if k > 0 {
      var rest := FullWindows(from + WINDOW, k - 1, max);
      assert from + WINDOW + (k - 2) * WINDOW == from + (k - 1) * WINDOW;
      FullWindowsAreAdmitted(Bucket(max, from), max, from + WINDOW, k - 1, lo, hi);
      assert k * max == max + (k - 1) * max;
      assert from <= from + (k - 1) * WINDOW;
      hide Admitted;
      AdmittedCons(Some(b), max, from, Burst(from, max - 1, rest), lo, hi);
      BurstIsAdmitted(Bucket(1, from), max, from, max - 1, rest, lo, hi);
    }
  }

  lemma {:induction false} BurstIsMonotone(t: nat, n: nat, rest: seq<nat>)
    requires Monotone(rest) && (rest != [] ==> t <= rest[0])
    ensures Monotone(Burst(t, n, rest)) && (Burst(t, n, rest) != [] ==> t <= Burst(t, n, rest)[0])
    decreases n
  {
    if n > 0 {
      BurstIsMonotone(t, n - 1, rest);
    }
  }

  lemma {:induction false} FullWindowsAreMonotone(from: nat, k: nat, max: nat)
    ensures Monotone(FullWindows(from, k, max))
    ensures FullWindows(from, k, max) != [] ==> from <= FullWindows(from, k, max)[0]
    decreases k
  {
    if k > 0 {
      FullWindowsAreMonotone(from + WINDOW, k - 1, max);
      BurstIsMonotone(from, max, FullWindows(from + WINDOW, k - 1, max));
    }
  }

  /** The bound cannot be improved: for every limit and every k, some trace has (k + 1) * max - 1 requests
      admitted within k windows. One request opens a window, the rest of its budget is used at the last
      moment, and then k windows are filled at their start. */
  lemma BoundIsAttained(max: nat, k: nat) returns (times: seq<nat>, lo: nat)
    requires max >= 1 && k >= 1
    ensures Monotone(times)
    ensures AdmittedIn(times, KeyVerdicts(None, max, times), lo, lo + k * WINDOW) == (k + 1) * max - 1
  {
    hide Monotone, Burst, FullWindows, KeyVerdicts, AdmittedIn;
    lo := WINDOW - 1;
    var later := FullWindows(WINDOW, k, max);
    times := [0] + Burst(lo, max - 1, later);
    FullWindowsAreMonotone(WINDOW, k, max);
    BurstIsMonotone(lo, max - 1, later);
    ZeroFirst(Burst(lo, max - 1, later));
    FullBudget(max, k, times, lo, lo + k * WINDOW);
  }

  lemma ZeroFirst(times: seq<nat>)
    requires Monotone(times)
    ensures Monotone([0] + times)
  {
  }

  lemma FullBudget(max: nat, k: nat, times: seq<nat>, lo: nat, hi: nat)
    requires max >= 1 && k >= 1 && lo == WINDOW - 1 && hi == lo + k * WINDOW
    requires times == [0] + Burst(lo, max - 1, FullWindows(WINDOW, k, max))
    ensures Admitted(None, max, times, lo, hi) == (k + 1) * max - 1
  {
    hide Admitted, Burst, FullWindows;
    var later := FullWindows(WINDOW, k, max);
    assert WINDOW + (k - 1) * WINDOW == k * WINDOW && (k + 1) * max == k * max + max;
    FullWindowsAreAdmitted(Bucket(max, 0), max, WINDOW, k, lo, hi);
    AdmittedCons(None, max, 0, Burst(lo, max - 1, later), lo, hi);
    BurstIsAdmitted(Bucket(1, 0), max, lo, max - 1, later, lo, hi);
  }

  // ---------------------------------------------------------------------------
  // When a request is turned away
  // ---------------------------------------------------------------------------

  function CountAllowed(rs: seq<Verdict>): nat {
    if rs == [] then 0 else CountAllowed(rs[..|rs| - 1]) + if rs[|rs| - 1].Allowed? then 1 else 0
  }

  /** The bucket counts what was admitted since the request that opened its window. */
  lemma {:induction false} BucketCountsItsWindow(max: nat, times: seq<nat>) returns (open: nat)
    requires max >= 1 && Monotone(times) && times != []
    ensures open < |times|
    ensures var b := KeyState(None, max, times);
            b.Some? && 1 <= b.value.count <= max && b.value.windowStart == times[open]
            && b.value.count == CountAllowed(KeyVerdicts(None, max, times)[open..])
    decreases |times|
  {
    var last := |times| - 1;
    var front, t := times[..last], times[last];
    assert times == front + [t];
    VerdictsAppend(None, max, front, t);
    var before := KeyVerdicts(None, max, front);
    var b, r := KeyState(None, max, front), Decide(KeyState(None, max, front), max, t).1;
    open := last;
    if front != [] {
      open := BucketCountsItsWindow(max, front);
      if Elapsed(b.value, t) >= WINDOW {
        open := last;
      }
    }
    var tail := if open == last then [] else before[open..];
    assert KeyVerdicts(None, max, times)[open..] == tail + [r];
    assert (tail + [r])[..|tail|] == tail;
  }

  /** No request is turned away before its window has admitted the full limit: when one is, exactly
      `max` requests of the same key were admitted since some earlier request less than a window ago. */
  lemma TurnedAwayMeansFull(max: nat, times: seq<nat>, t: nat) returns (open: nat)
    requires max >= 1 && Monotone(times + [t])
    requires KeyVerdicts(None, max, times + [t])[|times|].Rejected?
    ensures open < |times| && t - times[open] < WINDOW
    ensures CountAllowed(KeyVerdicts(None, max, times)[open..]) == max
  {
    VerdictsAppend(None, max, times, t);
    assert forall i :: 0 <= i < |times| ==> (times + [t])[i] == times[i];
    assert (times + [t])[|times|] == t;
    assert times != [];
    open := BucketCountsItsWindow(max, times);
  }

  /** It can be too short: with a limit of one, the second of two requests half a second apart is told to
      wait 59 seconds, and is turned away again after them. */
  lemma WaitCanBeTooShort()
    ensures KeyVerdicts(None, 1, [0, SECOND / 2, SECOND / 2 + 59 * SECOND]) == [Allowed, Rejected(59), Rejected(1)]
  {
    var t1, t2 := SECOND / 2, SECOND / 2 + 59 * SECOND;
    var b := Some(Bucket(1, 0));
    assert Decide(None, 1, 0) == (b, Allowed);
    assert Decide(b, 1, t1) == (b, Rejected(59)) && Decide(b, 1, t2) == (b, Rejected(1));
    hide Decide;
    assert [0, t1, t2][1..] == [t1, t2] && [t1, t2][1..] == [t2] && [t2][1..] == [];
    assert KeyVerdicts(b, 1, [t2]) == [Rejected(1)];
    assert KeyVerdicts(b, 1, [t1, t2]) == [Rejected(59)] + [Rejected(1)];
  }

  /** Waiting the advertised number of seconds gets an untouched key through exactly when the rest of
      the window is a whole number of seconds or less than one second. */
  lemma WaitSufficesIff(b: Bucket, max: nat, now: nat)
    requires 1 <= max <= b.count && b.windowStart <= now
    requires Decide(Some(b), max, now).1.Rejected?
    ensures var wait := Decide(Some(b), max, now).1.retryAfter;
            var left := WINDOW - Elapsed(b, now);
            Decide(Some(b), max, now + wait * SECOND).1.Allowed? <==> left % SECOND == 0 || left < SECOND
  {
  }

  /** A limit of zero turns the limiter off: every request is admitted, and nothing is remembered. */
  lemma {:induction false} ZeroDisables(b: Option<Bucket>, times: seq<nat>)
    ensures KeyState(b, 0, times) == b
    ensures forall i :: 0 <= i < |times| ==> KeyVerdicts(b, 0, times)[i] == Allowed
    decreases |times|
  {
    if times != [] {
      ZeroDisables(b, times[1..]);
    }
  }

  /** Should the clock be behind the window's start, no time has passed: a full bucket asks for the whole
      window. */
  lemma BehindTheClock(b: Bucket, max: nat, now: nat)
    requires 0 < max <= b.count && now < b.windowStart
    ensures Decide(Some(b), max, now) == (Some(b), Rejected(60))
  {
  }
}
