/**
 * The lazily refilled token bucket of per-key rate limiting
 * (crates/diaspor-api-server/src/rate_limit.rs). Tokens and monotonic time are reals.
 */
module RateLimit {
  import opened Common

  const U32_MAX: nat := 4294967295

  // ---------------------------------------------------------------- token bucket

  datatype Bucket = Bucket(tokens: real, lastRefillAt: real, maxTokens: real, refillPerSec: real)

  datatype BucketOutcome = Allowed | RateLimited(retryAfterSeconds: int)

  function Min(a: real, b: real): real { if a <= b then a else b }

  function Ceiling(x: real): int { -((-x).Floor) }

  function Clamp(x: int, lo: int, hi: int): int
  {
    if x < lo then lo else if x > hi then hi else x
  }

  function NewBucket(requestsPerMinute: nat, now: real): Bucket
  {
    var m := requestsPerMinute as real;
    Bucket(m, now, m, m / 60.0)
  }

  /** Tokens earned between two instants; a clock that went back earns nothing. */
  function Gain(rate: real, since: real, now: real): real
  {
    (if now > since then now - since else 0.0) * rate
  }

  function Refill(b: Bucket, now: real): Bucket
  {
    b.(tokens := Min(Gain(b.refillPerSec, b.lastRefillAt, now) + b.tokens, b.maxTokens), lastRefillAt := now)
  }

  function RetryAfter(tokens: real, refillPerSec: real): int
  {
    var seconds := if refillPerSec > 0.0 then (1.0 - tokens) / refillPerSec else U32_MAX as real;
    Clamp(Ceiling(seconds), 1, U32_MAX)
  }

  function Admits(b: Bucket, now: real): bool { Refill(b, now).tokens >= 1.0 }

  function Consume(b: Bucket, now: real): (BucketOutcome, Bucket)
  {
    var r := Refill(b, now);
    if r.tokens >= 1.0 then (Allowed, r.(tokens := r.tokens - 1.0))
    else (RateLimited(RetryAfter(r.tokens, r.refillPerSec)), r)
  }

  class TokenBucket {
    var tokens: real
    var lastRefillAt: real
    const maxTokens: real
    const refillPerSec: real

    ghost function View(): Bucket
      reads this
    {
      Bucket(tokens, lastRefillAt, maxTokens, refillPerSec)
    }

    constructor (requestsPerMinute: nat, now: real)
      ensures View() == NewBucket(requestsPerMinute, now)
    {
      var m := requestsPerMinute as real;
      tokens := m;
      lastRefillAt := now;
      maxTokens := m;
      refillPerSec := m / 60.0;
    }

    method RefillAt(now: real)
      modifies this
      ensures View() == Refill(old(View()), now)
    {
      var elapsed := if now > lastRefillAt then now - lastRefillAt else 0.0;
      tokens := Min(elapsed * refillPerSec + tokens, maxTokens);
      lastRefillAt := now;
    }

    method TryConsume(now: real) returns (outcome: BucketOutcome)
      modifies this
      ensures (outcome, View()) == Consume(old(View()), now)
    {
      RefillAt(now);
      if tokens >= 1.0 {
        tokens := tokens - 1.0;
        outcome := Allowed;
      } else {
        var needed := 1.0 - tokens;
        var seconds := if refillPerSec > 0.0 then needed / refillPerSec else U32_MAX as real;
        outcome := RateLimited(Clamp(Ceiling(seconds), 1, U32_MAX));
      }
    }
  }

  // ---------------------------------------------------------------- runs of one bucket

  predicate Sane(b: Bucket)
  {
    0.0 <= b.tokens <= b.maxTokens && 0.0 <= b.refillPerSec
  }

  predicate Monotone(start: real, times: seq<real>)
  {
    && (forall i :: 0 <= i < |times| ==> start <= times[i])
    && (forall i, j :: 0 <= i < j < |times| ==> times[i] <= times[j])
  }

  function RunBucket(b: Bucket, times: seq<real>): Bucket
  {
    if times == [] then b else Consume(RunBucket(b, Front(times)), Last(times)).1
  }

  /** The instants at which a run was allowed, in order. */
  function GrantTimes(b: Bucket, times: seq<real>): seq<real>
  {
    if times == [] then []
    else
      var earlier := GrantTimes(b, Front(times));
      if Admits(RunBucket(b, Front(times)), Last(times)) then earlier + [Last(times)] else earlier
  }

  lemma {:induction false} GainSplit(rate: real, s: real, u: real, t: real)
    requires 0.0 <= rate && s <= u <= t
    ensures Gain(rate, s, u) + Gain(rate, u, t) == Gain(rate, s, t)
    ensures 0.0 <= Gain(rate, s, u) && 0.0 <= Gain(rate, u, t)
  {
    assert (u - s) * rate + (t - u) * rate == (t - s) * rate;
  }

  /** Refilling at an intermediate instant makes no difference later: the bucket is continuous in time. */
  lemma {:induction false} RefillTwice(b: Bucket, u: real, t: real)
    requires Sane(b) && b.lastRefillAt <= u <= t
    ensures Refill(Refill(b, u), t) == Refill(b, t)
    ensures Sane(Refill(b, u))
  {
    GainSplit(b.refillPerSec, b.lastRefillAt, u, t);
  }

  lemma {:induction false} RunStaysSane(b: Bucket, times: seq<real>)
    requires Sane(b) && Monotone(b.lastRefillAt, times)
    ensures var e := RunBucket(b, times);
            && Sane(e) && e.maxTokens == b.maxTokens && e.refillPerSec == b.refillPerSec
            && e.lastRefillAt == (if times == [] then b.lastRefillAt else Last(times))
    decreases |times|
  {
    if times != [] {
      RunStaysSane(b, Front(times));
      var e := RunBucket(b, Front(times));
      RefillTwice(e, Last(times), Last(times));
    }
  }

  // ---------------------------------------------------------------- the window law

  /**
   * The credit left by the grants `g` at `t` if every window starting at a grant may hold at
   * most `max + rate * length` grants. Defined without any bucket.
   */
  function Slack(max: real, rate: real, g: seq<real>, t: real): real
  {
    if g == [] then max
    else Min(max + Gain(rate, g[0], t) - |g| as real, Slack(max, rate, g[1..], t))
  }

  lemma {:induction false} MinShift(max: real, a: real, level: real, n: real, d: real)
    ensures Min(max + (a + d) - (n + 1.0), Min(max, level - 1.0 + d)) == Min(max, Min(max + a - n, level) - 1.0 + d)
  {
  }

  lemma {:induction false} SlackSnoc(max: real, rate: real, g: seq<real>, u: real, t: real)
    requires 0.0 <= rate && u <= t && forall i :: 0 <= i < |g| ==> g[i] <= u
    ensures Slack(max, rate, g + [u], t) == Min(max, Slack(max, rate, g, u) - 1.0 + Gain(rate, u, t))
  {
    var longer := g + [u];
    if g == [] {
      assert longer[1..] == [];
      assert longer[0] == u;
    } else {
      assert longer[1..] == g[1..] + [u];
      var a, d := Gain(rate, g[0], u), Gain(rate, u, t);
      var level := Slack(max, rate, g[1..], u);
      SlackSnoc(max, rate, g[1..], u, t);
      GainSplit(rate, g[0], u, t);
      assert Slack(max, rate, longer, t) == Min(max + (a + d) - (|g| as real + 1.0), Min(max, level - 1.0 + d));
      MinShift(max, a, level, |g| as real, d);
    }
  }

  /** `times` is a monotone run of `b` and `t` is not before it. */
  predicate RunUntil(b: Bucket, times: seq<real>, t: real)
  {
    Monotone(b.lastRefillAt, times) && b.lastRefillAt <= t && forall i :: 0 <= i < |times| ==> times[i] <= t
  }

  lemma {:induction false} GrantsAreCalls(b: Bucket, times: seq<real>, t: real)
    requires RunUntil(b, times, t)
    ensures RunUntil(b, GrantTimes(b, times), t)
    decreases |times|
  {
    if times != [] {
      GrantsAreCalls(b, Front(times), Last(times));
    }
  }

  lemma {:induction false} RefillIs(e: Bucket, t: real)
    requires e.lastRefillAt <= t
    ensures Refill(e, t).tokens == Min(e.maxTokens, e.tokens + Gain(e.refillPerSec, e.lastRefillAt, t))
  {
  }

  /** The level at `t` after a call at `u`, in terms of the level before it. */
  lemma {:induction false} LevelAfterCall(e: Bucket, u: real, t: real)
    requires Sane(e) && e.lastRefillAt <= u <= t
    ensures Admits(e, u) ==>
              Refill(Consume(e, u).1, t).tokens == Min(e.maxTokens, Refill(e, u).tokens - 1.0 + Gain(e.refillPerSec, u, t))
    ensures !Admits(e, u) ==> Refill(Consume(e, u).1, t) == Refill(e, t)
  {
    RefillIs(Consume(e, u).1, t);
    RefillTwice(e, u, t);
  }

  /** The lazily refilled bucket holds, at every later instant, exactly the slack of its grants so far. */
  lemma {:induction false} BucketIsSlack(b: Bucket, times: seq<real>, t: real)
    requires Sane(b) && b.tokens == b.maxTokens && RunUntil(b, times, t)
    ensures Refill(RunBucket(b, times), t).tokens == Slack(b.maxTokens, b.refillPerSec, GrantTimes(b, times), t)
    decreases |times|
  {
    var max, rate := b.maxTokens, b.refillPerSec;
    if times == [] {
      GainSplit(rate, b.lastRefillAt, t, t);
      RefillIs(b, t);
    } else {
      var before, u := Front(times), Last(times);
      var e, g := RunBucket(b, before), GrantTimes(b, before);
      RunStaysSane(b, before);
      LevelAfterCall(e, u, t);
      assert RunBucket(b, times) == Consume(e, u).1;
      if Admits(e, u) {
        BucketIsSlack(b, before, u);
        GrantsAreCalls(b, before, u);
        SlackSnoc(max, rate, g, u, t);
        assert GrantTimes(b, times) == g + [u];
        calc {
          Refill(RunBucket(b, times), t).tokens;
          Min(max, Refill(e, u).tokens - 1.0 + Gain(rate, u, t));
          Min(max, Slack(max, rate, g, u) - 1.0 + Gain(rate, u, t));
          Slack(max, rate, g + [u], t);
        }
      } else {
        BucketIsSlack(b, before, t);
        assert GrantTimes(b, times) == g;
      }
    }
  }

  /** Granting once more at `t` would keep every window that starts at an earlier grant, or at `t`, within bounds. */
  predicate WindowsAllow(max: real, rate: real, g: seq<real>, t: real)
  {
    max >= 1.0 && forall i :: 0 <= i < |g| ==> (|g| - i + 1) as real <= max + Gain(rate, g[i], t)
  }

  lemma {:induction false} SlackIffWindows(max: real, rate: real, g: seq<real>, t: real)
    ensures Slack(max, rate, g, t) >= 1.0 <==> WindowsAllow(max, rate, g, t)
  {
    if g != [] {
      SlackIffWindows(max, rate, g[1..], t);
      assert forall i :: 0 <= i < |g| - 1 ==> g[1..][i] == g[i + 1];
      if WindowsAllow(max, rate, g[1..], t) && max + Gain(rate, g[0], t) - |g| as real >= 1.0 {
        forall i | 0 <= i < |g|
          ensures (|g| - i + 1) as real <= max + Gain(rate, g[i], t)
        {
          if i > 0 {
            assert g[1..][i - 1] == g[i];
          }
        }
      }
      if WindowsAllow(max, rate, g, t) {
        forall i | 0 <= i < |g[1..]|
          ensures (|g[1..]| - i + 1) as real <= max + Gain(rate, g[1..][i], t)
        {
          assert g[i + 1] == g[1..][i];
        }
      }
    }
  }

  /**
   * The bucket is the greatest limiter that respects its windows: in any monotone run from a
   * full bucket, a call at `t` is allowed if and only if allowing it breaks no window bound.
   */
  lemma {:induction false} AllowedIffWindowsAllow(b: Bucket, times: seq<real>, t: real)
    requires Sane(b) && b.tokens == b.maxTokens && RunUntil(b, times, t)
    ensures Consume(RunBucket(b, times), t).0 == Allowed <==>
            WindowsAllow(b.maxTokens, b.refillPerSec, GrantTimes(b, times), t)
  {
    BucketIsSlack(b, times, t);
    SlackIffWindows(b.maxTokens, b.refillPerSec, GrantTimes(b, times), t);
  }

  /** How many calls of a run are allowed. */
  function Grants(b: Bucket, times: seq<real>): nat { |GrantTimes(b, times)| }

  /** One call spends what it grants: credit after plus the grant is at most credit before plus the refill. */
  lemma {:induction false} CallSpendsCredit(e: Bucket, u: real, t: real)
    requires Sane(e) && e.lastRefillAt <= u <= t
    ensures (if Admits(e, t) then 1.0 else 0.0) + Consume(e, t).1.tokens <= Refill(e, u).tokens + Gain(e.refillPerSec, u, t)
  {
    RefillTwice(e, u, t);
    RefillIs(Refill(e, u), t);
  }

  /** From any state, the calls after `s` that are allowed number at most the credit at `s` plus the refill. */
  lemma {:induction false} GrantsBoundedByCredit(b: Bucket, s: real, times: seq<real>)
    requires Sane(b) && b.lastRefillAt <= s && Monotone(s, times) && times != []
    ensures Grants(b, times) as real + RunBucket(b, times).tokens <=
            Refill(b, s).tokens + Gain(b.refillPerSec, s, Last(times))
    decreases |times|
  {
    var before, t := Front(times), Last(times);
    assert forall i :: 0 <= i < |times| ==> b.lastRefillAt <= times[i];
    RunStaysSane(b, before);
    var e := RunBucket(b, before);
    var spent := if Admits(e, t) then 1.0 else 0.0;
    assert Grants(b, times) as real == Grants(b, before) as real + spent;
    if before == [] {
      CallSpendsCredit(e, s, t);
    } else {
      var u := Last(before);
      GrantsBoundedByCredit(b, s, before);
      CallSpendsCredit(e, u, t);
      RefillAtOnce(e);
      GainSplit(b.refillPerSec, s, u, t);
    }
  }

  lemma {:induction false} RefillAtOnce(e: Bucket)
    requires Sane(e)
    ensures Refill(e, e.lastRefillAt) == e
  {
  }

  /**
   * The burst law: in every monotone run and every window `[s, t]` of it, at most
   * `max + rate * (t - s)` calls are allowed, and the token count never leaves `[0, max]`.
   */
  lemma {:induction false} WindowBound(b: Bucket, earlier: seq<real>, window: seq<real>, s: real, t: real)
    requires Sane(b) && RunUntil(b, earlier, s)
    requires Monotone(s, window) && s <= t && forall i :: 0 <= i < |window| ==> window[i] <= t
    ensures Grants(RunBucket(b, earlier), window) as real <= b.maxTokens + Gain(b.refillPerSec, s, t)
    ensures Sane(RunBucket(RunBucket(b, earlier), window))
  {
    RunStaysSane(b, earlier);
    var e := RunBucket(b, earlier);
    RunStaysSane(e, window);
    GainSplit(b.refillPerSec, s, t, t);
    if window != [] {
      var last := Last(window);
      var gained := Gain(b.refillPerSec, s, last);
      GrantsBoundedByCredit(e, s, window);
      assert Refill(e, s).tokens <= b.maxTokens;
      GainSplit(b.refillPerSec, s, last, t);
      assert Grants(e, window) as real <= b.maxTokens + gained;
    }
  }

  // ---------------------------------------------------------------- rejected calls are invisible

  /** Two runs with the same grants answer every later call alike. */
  lemma {:induction false} SameGrantsSameAnswer(b: Bucket, xs: seq<real>, ys: seq<real>, t: real)
    requires Sane(b) && b.tokens == b.maxTokens && RunUntil(b, xs, t) && RunUntil(b, ys, t)
    requires GrantTimes(b, xs) == GrantTimes(b, ys)
    ensures Consume(RunBucket(b, xs), t) == Consume(RunBucket(b, ys), t)
  {
    BucketIsSlack(b, xs, t);
    BucketIsSlack(b, ys, t);
    RunStaysSane(b, xs);
    RunStaysSane(b, ys);
  }

  /** Deleting (or inserting) a rejected call changes no other outcome of the run. */
  lemma {:induction false} RejectedCallInvisible(b: Bucket, xs: seq<real>, r: real, ys: seq<real>)
    requires Sane(b) && b.tokens == b.maxTokens && Monotone(b.lastRefillAt, xs + [r] + ys)
    requires !Admits(RunBucket(b, xs), r)
    ensures GrantTimes(b, xs + [r] + ys) == GrantTimes(b, xs + ys)
    decreases |ys|
  {
    var with, without := xs + [r] + ys, xs + ys;
    if ys == [] {
      assert with == xs + [r] && without == xs && Front(with) == xs;
    } else {
      var init, t := Front(ys), Last(ys);
      assert Front(with) == xs + [r] + init && Front(without) == xs + init;
      assert Last(with) == t && Last(without) == t;
      WithoutOneCall(b, xs, r, init, t, with);
      RejectedCallInvisible(b, xs, r, init);
      SameGrantsSameAnswer(b, xs + [r] + init, xs + init, t);
    }
  }

  lemma {:induction false} WithoutOneCall(b: Bucket, xs: seq<real>, r: real, init: seq<real>, t: real, all: seq<real>)
    requires all == xs + [r] + init + [t] && Monotone(b.lastRefillAt, all)
    ensures RunUntil(b, xs + init, t) && RunUntil(b, xs + [r] + init, t)
  {
    var short, long := xs + init, xs + [r] + init;
    assert forall i :: 0 <= i < |long| ==> long[i] == all[i];
    assert forall i :: 0 <= i < |short| ==> short[i] == all[if i < |xs| then i else i + 1];
    assert all[|long|] == t;
  }

  /** Replaying only the allowed calls of a run allows every one of them again. */
  lemma {:induction false} ReplayingGrants(b: Bucket, times: seq<real>)
    requires Sane(b) && b.tokens == b.maxTokens && Monotone(b.lastRefillAt, times)
    ensures GrantTimes(b, GrantTimes(b, times)) == GrantTimes(b, times)
    decreases |times|
  {
    if times != [] {
      var before, t := Front(times), Last(times);
      ReplayingGrants(b, before);
      var g := GrantTimes(b, before);
      if Admits(RunBucket(b, before), t) {
        GrantsAreCalls(b, before, t);
        SameGrantsSameAnswer(b, before, g, t);
        assert Front(g + [t]) == g;
      }
    }
  }

  // ---------------------------------------------------------------- Retry-After

  lemma {:induction false} CeilingIs(x: real)
    ensures Ceiling(x) as real - 1.0 < x <= Ceiling(x) as real
  {
  }

  /** `(1 - tokens) / rate` seconds are what the refill needs to reach one token. */
  lemma {:induction false} RefillReachesOneIff(tokens: real, rate: real, k: nat)
    requires 0.0 < rate
    ensures tokens + rate * k as real >= 1.0 <==> k as real >= (1.0 - tokens) / rate
  {
    var needed := (1.0 - tokens) / rate;
    assert rate * needed == 1.0 - tokens;
    if k as real >= needed {
      assert rate * k as real >= rate * needed;
    } else {
      assert rate * k as real < rate * needed;
    }
  }

  /** A call `seconds` after the bucket was last touched passes. */
  predicate AllowedAfter(b: Bucket, seconds: nat)
  {
    Consume(b, b.lastRefillAt + seconds as real).0 == Allowed
  }

  /** The rounded-up wait of a bucket that cannot pay yet lies in 1..60 when it refills in a minute. */
  lemma {:induction false} HintIsLeast(e: Bucket, k: int)
    requires 0.0 <= e.tokens < 1.0 && 60.0 * e.refillPerSec >= 1.0 && k == Ceiling((1.0 - e.tokens) / e.refillPerSec)
    ensures 1 <= k <= 60 && RetryAfter(e.tokens, e.refillPerSec) == k
  {
    RefillReachesOneIff(e.tokens, e.refillPerSec, 60);
    RefillReachesOneIff(e.tokens, e.refillPerSec, 0);
    CeilingIs((1.0 - e.tokens) / e.refillPerSec);
  }

  lemma {:induction false} HintIsLeastAt(e: Bucket, k: int, j: nat)
    requires 0.0 <= e.tokens < 1.0 <= e.maxTokens && 0.0 < e.refillPerSec
    requires k == Ceiling((1.0 - e.tokens) / e.refillPerSec)
    ensures AllowedAfter(e, j) <==> j >= k
  {
    RefillReachesOneIff(e.tokens, e.refillPerSec, j);
    CeilingIs((1.0 - e.tokens) / e.refillPerSec);
    RefillIs(e, e.lastRefillAt + j as real);
    assert Gain(e.refillPerSec, e.lastRefillAt, e.lastRefillAt + j as real) == e.refillPerSec * j as real;
  }

  /**
   * With a limit of at least one request a minute, the reported Retry-After (section 10.2.3 of
   * RFC 9110) lies in 1..60 and is the least whole number of seconds after which a call passes.
   */
  lemma {:induction false} RetryAfterIsLeast(b: Bucket, now: real, requestsPerMinute: nat)
    requires Sane(b) && b.lastRefillAt <= now && requestsPerMinute >= 1
    requires b.maxTokens == requestsPerMinute as real && b.refillPerSec == b.maxTokens / 60.0
    requires Consume(b, now).0.RateLimited?
    ensures 1 <= Consume(b, now).0.retryAfterSeconds <= 60
    ensures forall j: nat :: AllowedAfter(Consume(b, now).1, j) <==> j >= Consume(b, now).0.retryAfterSeconds
  {
    RefillTwice(b, now, now);
    var e := Refill(b, now);
    HintIsLeast(e, Ceiling((1.0 - e.tokens) / e.refillPerSec));
    forall j: nat
      ensures AllowedAfter(e, j) <==> j >= Consume(b, now).0.retryAfterSeconds
    {
      HintIsLeastAt(e, Ceiling((1.0 - e.tokens) / e.refillPerSec), j);
    }
  }

  /** With a limit of zero every call is rejected with the largest hint, whenever it comes. */
  lemma {:induction false} ZeroLimitNeverAdmits(start: real, times: seq<real>, t: real)
    requires RunUntil(NewBucket(0, start), times, t)
    ensures Consume(RunBucket(NewBucket(0, start), times), t).0 == RateLimited(U32_MAX)
  {
    var b := NewBucket(0, start);
    RunStaysSane(b, times);
    RefillTwice(RunBucket(b, times), t, t);
  }

  /** Why the clock must be monotone: after a backward step the same second is credited twice. */
  lemma {:induction false} BackwardClockOvercounts()
    ensures var b := NewBucket(1, 0.0);
            && Grants(b, [0.0, 60.0, 0.0, 60.0]) == 3
            && 3.0 > b.maxTokens + b.refillPerSec * 60.0
  {
    var b := NewBucket(1, 0.0);
    var c1 := Consume(b, 0.0).1;
    assert c1.tokens == 0.0;
    var c2 := Consume(c1, 60.0).1;
    assert c2.tokens == 0.0;
    var c3 := Consume(c2, 0.0).1;
    assert c3.tokens == 0.0 && c3.lastRefillAt == 0.0;
    assert Admits(c3, 60.0);
    var a, w, x, y := [0.0], [0.0, 60.0], [0.0, 60.0, 0.0], [0.0, 60.0, 0.0, 60.0];
    assert Front(y) == x && Front(x) == w && Front(w) == a && Front(a) == [];
    assert RunBucket(b, a) == Consume(RunBucket(b, []), 0.0).1 == c1;
    assert RunBucket(b, w) == c2 && RunBucket(b, x) == c3;
    assert Grants(b, a) == 1 && Grants(b, w) == 2 && Grants(b, x) == 2;
  }
}
