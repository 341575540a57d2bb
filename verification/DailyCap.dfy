/**
 * The calendar-day counter and the two-gate middleware step
 * (crates/diaspor-api-server/src/rate_limit.rs).
 *
 * Stamps are nanoseconds of UTC wall clock. A stamp is taken before the counter's map entry
 * is held, so stamps may reach a counter out of order.
 */
module DailyCap {
  import opened Common
  import opened RateLimit

  const NANOS_PER_SECOND: int := 1_000_000_000
  const SECONDS_PER_DAY: int := 86_400
  const NANOS_PER_DAY: int := SECONDS_PER_DAY * NANOS_PER_SECOND

  /** The UTC date of a stamp, as a day number. */
  function Day(stamp: int): int { stamp / NANOS_PER_DAY }

  datatype Counter = Counter(date: int, count: nat)

  datatype DailyOutcome = Admitted | CapReached(retryAfterSeconds: int)

  function NewCounter(now: int): Counter { Counter(Day(now), 0) }

  /** Nanoseconds from `now` to the start of the next UTC day. */
  function UntilMidnight(now: int): int { (Day(now) + 1) * NANOS_PER_DAY - now }

  function SecondsUntilMidnight(now: int): int
  {
    Clamp(UntilMidnight(now) / NANOS_PER_SECOND, 1, SECONDS_PER_DAY)
  }

  function RollOver(c: Counter, now: int): Counter
  {
    if Day(now) > c.date then Counter(Day(now), 0) else c
  }

  function Increment(c: Counter, now: int, cap: nat): (DailyOutcome, Counter)
  {
    var r := RollOver(c, now);
    if r.count >= cap then (CapReached(SecondsUntilMidnight(now)), r)
    else (Admitted, r.(count := if r.count == U32_MAX then U32_MAX else r.count + 1))
  }

  class DailyCounter {
    var date: int
    var count: nat

    ghost function View(): Counter
      reads this
    {
      Counter(date, count)
    }

    constructor (now: int)
      ensures View() == NewCounter(now)
    {
      date := Day(now);
      count := 0;
    }

    method TryIncrement(now: int, cap: nat) returns (outcome: DailyOutcome)
      modifies this
      ensures (outcome, View()) == Increment(old(View()), now, cap)
    {
      var today := Day(now);
      if today > date {
        date := today;
        count := 0;
      }
      if count >= cap {
        outcome := CapReached(SecondsUntilMidnight(now));
      } else {
        count := if count == U32_MAX then U32_MAX else count + 1;
        outcome := Admitted;
      }
    }
  }

  // ---------------------------------------------------------------- the cap over whole runs

  function RunCounter(c: Counter, stamps: seq<int>, cap: nat): Counter
  {
    if stamps == [] then c else Increment(RunCounter(c, Front(stamps), cap), Last(stamps), cap).1
  }

  function Admits(c: Counter, stamp: int, cap: nat): bool { Increment(c, stamp, cap).0 == Admitted }

  /** How many admitted calls of the run were charged while the counter stood at `date`. */
  function ChargedTo(c: Counter, stamps: seq<int>, cap: nat, date: int): nat
  {
    if stamps == [] then 0
    else
      var before := RunCounter(c, Front(stamps), cap);
      ChargedTo(c, Front(stamps), cap, date) +
      if Admits(before, Last(stamps), cap) && RollOver(before, Last(stamps)).date == date then 1 else 0
  }

  /** How many admitted calls of the run carry a stamp of UTC day `day`. */
  function AdmittedOnDay(c: Counter, stamps: seq<int>, cap: nat, day: int): nat
  {
    if stamps == [] then 0
    else
      AdmittedOnDay(c, Front(stamps), cap, day) +
      if Admits(RunCounter(c, Front(stamps), cap), Last(stamps), cap) && Day(Last(stamps)) == day then 1 else 0
  }

  lemma {:induction false} CounterTracksCharges(start: int, stamps: seq<int>, cap: nat, date: int)
    requires cap <= U32_MAX
    ensures var c := RunCounter(Counter(start, 0), stamps, cap);
            && c.count <= cap
            && ChargedTo(Counter(start, 0), stamps, cap, c.date) == c.count
            && (date > c.date ==> ChargedTo(Counter(start, 0), stamps, cap, date) == 0)
            && ChargedTo(Counter(start, 0), stamps, cap, date) <= cap
    decreases |stamps|
  {
    if stamps != [] {
      var c := RunCounter(Counter(start, 0), stamps, cap);
      CounterTracksCharges(start, Front(stamps), cap, date);
      CounterTracksCharges(start, Front(stamps), cap, c.date);
    }
  }

  /** In whatever order stamps arrive, no counter date is ever charged more than the cap. */
  lemma {:induction false} NoDateOvercharged(first: int, stamps: seq<int>, cap: nat, date: int)
    requires cap <= U32_MAX
    ensures ChargedTo(NewCounter(first), stamps, cap, date) <= cap
  {
    CounterTracksCharges(Day(first), stamps, cap, date);
  }

  // ---------------------------------------------------------------- the cap per UTC day, from the stamps alone

  /** The latest UTC date among the stamps seen so far. */
  function Epoch(first: int, stamps: seq<int>): int
  {
    if stamps == [] then Day(first)
    else
      var earlier, day := Epoch(first, Front(stamps)), Day(Last(stamps));
      if day > earlier then day else earlier
  }

  /** How many of the stamps arrived while `date` was the latest date seen, their own included. */
  function Rank(first: int, stamps: seq<int>, date: int): nat
  {
    if stamps == [] then 0
    else Rank(first, Front(stamps), date) + if Epoch(first, stamps) == date then 1 else 0
  }

  /** The last stamp is among the first `cap` that arrived in its epoch. */
  predicate InTime(first: int, stamps: seq<int>, cap: nat)
    requires stamps != []
  {
    Rank(first, Front(stamps), Epoch(first, stamps)) < cap
  }

  /** How many stamps of UTC day `day` are among the first `cap` of the epoch they arrived in. */
  function InTimeOnDay(first: int, stamps: seq<int>, cap: nat, day: int): nat
  {
    if stamps == [] then 0
    else
      InTimeOnDay(first, Front(stamps), cap, day) +
      if Day(Last(stamps)) == day && InTime(first, stamps, cap) then 1 else 0
  }

  /** The same, for the stamps that arrived after a later date had been seen. */
  function LateOnDay(first: int, stamps: seq<int>, cap: nat, day: int): nat
  {
    if stamps == [] then 0
    else
      LateOnDay(first, Front(stamps), cap, day) +
      if Day(Last(stamps)) == day && Epoch(first, stamps) != day && InTime(first, stamps, cap) then 1 else 0
  }

  lemma {:induction false} FutureRankIsZero(first: int, stamps: seq<int>, date: int)
    requires date > Epoch(first, stamps)
    ensures Rank(first, stamps, date) == 0
    decreases |stamps|
  {
    if stamps != [] {
      FutureRankIsZero(first, Front(stamps), date);
    }
  }

  /** The counter stands at the epoch and holds its rank, cut at the cap. */
  lemma {:induction false} CounterIsRank(first: int, stamps: seq<int>, cap: nat)
    requires cap <= U32_MAX
    ensures var c, rank := RunCounter(NewCounter(first), stamps, cap), Rank(first, stamps, Epoch(first, stamps));
            c.date == Epoch(first, stamps) && c.count == if rank < cap then rank else cap
    decreases |stamps|
  {
    if stamps != [] {
      CounterIsRank(first, Front(stamps), cap);
      if Day(Last(stamps)) > Epoch(first, Front(stamps)) {
        FutureRankIsZero(first, Front(stamps), Day(Last(stamps)));
      }
    }
  }

  /** In every order of stamps, a call is admitted if and only if it is among the first `cap` of its epoch. */
  lemma {:induction false} AdmittedIff(first: int, stamps: seq<int>, stamp: int, cap: nat)
    requires cap <= U32_MAX
    ensures Admits(RunCounter(NewCounter(first), stamps, cap), stamp, cap) <==>
            Rank(first, stamps, Epoch(first, stamps + [stamp])) < cap
  {
    assert Front(stamps + [stamp]) == stamps;
    CounterIsRank(first, stamps, cap);
    if Day(stamp) > Epoch(first, stamps) {
      FutureRankIsZero(first, stamps, Day(stamp));
    }
  }

  lemma {:induction false} AdmittedIsInTime(first: int, stamps: seq<int>, cap: nat, day: int)
    requires cap <= U32_MAX
    ensures AdmittedOnDay(NewCounter(first), stamps, cap, day) == InTimeOnDay(first, stamps, cap, day)
    decreases |stamps|
  {
    if stamps != [] {
      AdmittedIsInTime(first, Front(stamps), cap, day);
      AdmittedIff(first, Front(stamps), Last(stamps), cap);
      assert Front(stamps) + [Last(stamps)] == stamps;
    }
  }

  /** Whatever is not late fits the cap: it is among the first `cap` of one epoch. */
  lemma {:induction false} PunctualFits(first: int, stamps: seq<int>, cap: nat, day: int)
    ensures var punctual := InTimeOnDay(first, stamps, cap, day) - LateOnDay(first, stamps, cap, day);
            punctual <= cap && punctual <= Rank(first, stamps, day)
    decreases |stamps|
  {
    if stamps != [] {
      PunctualFits(first, Front(stamps), cap, day);
    }
  }

  /**
   * The cap per UTC day, exactly: at most `cap` calls of a day are admitted if and only if at
   * most `cap` stamps of that day are in time for their epoch. Only late stamps can break it.
   */
  lemma {:induction false} DailyCapIff(first: int, stamps: seq<int>, cap: nat, day: int)
    requires cap <= U32_MAX
    ensures AdmittedOnDay(NewCounter(first), stamps, cap, day) <= cap <==> InTimeOnDay(first, stamps, cap, day) <= cap
    ensures LateOnDay(first, stamps, cap, day) == 0 ==> AdmittedOnDay(NewCounter(first), stamps, cap, day) <= cap
  {
    AdmittedIsInTime(first, stamps, cap, day);
    PunctualFits(first, stamps, cap, day);
  }

  predicate NonDecreasing(first: int, stamps: seq<int>)
  {
    && (forall i :: 0 <= i < |stamps| ==> first <= stamps[i])
    && (forall i, j :: 0 <= i < j < |stamps| ==> stamps[i] <= stamps[j])
  }

  lemma {:induction false} DayMonotone(a: int, b: int)
    requires a <= b
    ensures Day(a) <= Day(b)
  {
  }

  lemma {:induction false} InOrderIsNeverLate(first: int, stamps: seq<int>, cap: nat, day: int)
    requires NonDecreasing(first, stamps)
    ensures LateOnDay(first, stamps, cap, day) == 0
    ensures Epoch(first, stamps) == Day(if stamps == [] then first else Last(stamps))
    decreases |stamps|
  {
    if stamps != [] {
      var before, last := Front(stamps), Last(stamps);
      InOrderIsNeverLate(first, before, cap, day);
      DayMonotone(if before == [] then first else Last(before), last);
    }
  }

  /** With stamps in order, at most `cap` calls are admitted per UTC day. */
  lemma {:induction false} DailyCapHolds(first: int, stamps: seq<int>, cap: nat, day: int)
    requires cap <= U32_MAX && NonDecreasing(first, stamps)
    ensures AdmittedOnDay(NewCounter(first), stamps, cap, day) <= cap
  {
    InOrderIsNeverLate(first, stamps, cap, day);
    DailyCapIff(first, stamps, cap, day);
  }

  /** A late stamp is charged to the newer date, so a UTC day can be admitted more than the cap. */
  lemma {:induction false} LateStampExceedsDay()
    ensures AdmittedOnDay(NewCounter(0), [0, 1, NANOS_PER_DAY, 2], 2, 0) == 3
  {
    var c := NewCounter(0);
    assert Day(0) == 0 && Day(1) == 0 && Day(2) == 0 && Day(NANOS_PER_DAY) == 1;
    var s1, s2, s3, s4 := [0], [0, 1], [0, 1, NANOS_PER_DAY], [0, 1, NANOS_PER_DAY, 2];
    assert Front(s4) == s3 && Front(s3) == s2 && Front(s2) == s1 && Front(s1) == [];
    assert RunCounter(c, s1, 2) == Increment(RunCounter(c, [], 2), 0, 2).1 == Counter(0, 1);
    assert RunCounter(c, s2, 2) == Counter(0, 2);
    assert RunCounter(c, s3, 2) == Counter(1, 1);
    assert AdmittedOnDay(c, s1, 2, 0) == 1 && AdmittedOnDay(c, s2, 2, 0) == 2 && AdmittedOnDay(c, s3, 2, 0) == 2;
  }

  // ---------------------------------------------------------------- the midnight hint

  lemma {:induction false} UntilMidnightRange(now: int)
    ensures 0 < UntilMidnight(now) <= NANOS_PER_DAY
  {
    assert now == Day(now) * NANOS_PER_DAY + now % NANOS_PER_DAY;
  }

  lemma {:induction false} DayOfLater(now: int, wait: int)
    requires 0 <= wait
    ensures Day(now + wait) > Day(now) <==> wait >= UntilMidnight(now)
  {
    var d := Day(now);
    assert now == d * NANOS_PER_DAY + now % NANOS_PER_DAY;
    assert now + wait == Day(now + wait) * NANOS_PER_DAY + (now + wait) % NANOS_PER_DAY;
  }

  /**
   * The hint lies in 1..86400 and is within one second of the true time to midnight, so one
   * second more than the hint always reaches the next date. The hint alone reaches it exactly
   * when the remaining time is a whole number of seconds or less than one second.
   */
  lemma {:induction false} MidnightHint(now: int)
    ensures 1 <= SecondsUntilMidnight(now) <= SECONDS_PER_DAY
    ensures -NANOS_PER_SECOND < UntilMidnight(now) - SecondsUntilMidnight(now) * NANOS_PER_SECOND < NANOS_PER_SECOND
    ensures Day(now + (SecondsUntilMidnight(now) + 1) * NANOS_PER_SECOND) > Day(now)
    ensures Day(now + SecondsUntilMidnight(now) * NANOS_PER_SECOND) > Day(now) <==>
            UntilMidnight(now) < NANOS_PER_SECOND || UntilMidnight(now) % NANOS_PER_SECOND == 0
  {
    UntilMidnightRange(now);
    var left, hint := UntilMidnight(now), SecondsUntilMidnight(now);
    assert left == (left / NANOS_PER_SECOND) * NANOS_PER_SECOND + left % NANOS_PER_SECOND;
    DayOfLater(now, (hint + 1) * NANOS_PER_SECOND);
    DayOfLater(now, hint * NANOS_PER_SECOND);
  }

  // ---------------------------------------------------------------- the middleware

  datatype Limits = Limits(buckets: map<string, Bucket>, counters: map<string, Counter>)

  datatype Config = Config(maxPerMinute: nat, dailyCap: nat)

  /** The two lock-held steps of a request; steps of different requests may interleave. */
  datatype Gate = BucketGate(key: string, now: real) | DailyGate(key: string, stamp: int)

  datatype Response = Pass | TooManyRequests(retryAfterSeconds: int)

  function BucketFor(cfg: Config, l: Limits, key: string, now: real): Bucket
  {
    if key in l.buckets then l.buckets[key] else NewBucket(cfg.maxPerMinute, now)
  }

  function CounterFor(l: Limits, key: string, stamp: int): Counter
  {
    if key in l.counters then l.counters[key] else NewCounter(stamp)
  }

  function GateStep(cfg: Config, l: Limits, gate: Gate): (Response, Limits)
  {
    match gate
    case BucketGate(key, now) =>
      var (outcome, b) := Consume(BucketFor(cfg, l, key, now), now);
      (if outcome == Allowed then Pass else TooManyRequests(outcome.retryAfterSeconds), l.(buckets := l.buckets[key := b]))
    case DailyGate(key, stamp) =>
      var (outcome, c) := Increment(CounterFor(l, key, stamp), stamp, cfg.dailyCap);
      (if outcome == Admitted then Pass else TooManyRequests(outcome.retryAfterSeconds), l.(counters := l.counters[key := c]))
  }

  /** A whole request: the bucket first; the daily counter only if the bucket allowed it. */
  function RequestStep(cfg: Config, l: Limits, key: string, now: real, stamp: int): (Response, Limits)
  {
    var (first, mid) := GateStep(cfg, l, BucketGate(key, now));
    if first != Pass then (first, mid) else GateStep(cfg, mid, DailyGate(key, stamp))
  }

  class AppState {
    const config: Config
    var rateBuckets: map<string, TokenBucket>
    var dailyCounts: map<string, DailyCounter>

    /** No two keys share an entry object. */
    ghost predicate Valid()
      reads this
    {
      && (forall k, j :: k in rateBuckets && j in rateBuckets && rateBuckets[k] == rateBuckets[j] ==> k == j)
      && (forall k, j :: k in dailyCounts && j in dailyCounts && dailyCounts[k] == dailyCounts[j] ==> k == j)
    }

    ghost function View(): Limits
      reads this, rateBuckets.Values, dailyCounts.Values
    {
      Limits(map k | k in rateBuckets :: rateBuckets[k].View(), map k | k in dailyCounts :: dailyCounts[k].View())
    }

    constructor (config: Config)
      ensures Valid() && View() == Limits(map[], map[]) && this.config == config
    {
      this.config := config;
      rateBuckets := map[];
      dailyCounts := map[];
    }

    method PassBucket(key: string, now: real) returns (r: Response)
      requires Valid()
      modifies this`rateBuckets, rateBuckets.Values
      ensures Valid() && fresh(rateBuckets.Values - old(rateBuckets.Values))
      ensures (r, View()) == GateStep(config, old(View()), BucketGate(key, now))
    {
      if key !in rateBuckets {
        var created := new TokenBucket(config.maxPerMinute, now);
        rateBuckets := rateBuckets[key := created];
      }
      var entry := rateBuckets[key];
      var outcome := entry.TryConsume(now);
      assert View().counters == old(View()).counters;
      assert View().buckets == old(View()).buckets[key := entry.View()];
      match outcome
      case Allowed => r := Pass;
      case RateLimited(retry) => r := TooManyRequests(retry);
    }

    method PassDaily(key: string, stamp: int) returns (r: Response)
      requires Valid()
      modifies this`dailyCounts, dailyCounts.Values
      ensures Valid() && fresh(dailyCounts.Values - old(dailyCounts.Values))
      ensures (r, View()) == GateStep(config, old(View()), DailyGate(key, stamp))
    {
      if key !in dailyCounts {
        var created := new DailyCounter(stamp);
        dailyCounts := dailyCounts[key := created];
      }
      var entry := dailyCounts[key];
      var outcome := entry.TryIncrement(stamp, config.dailyCap);
      assert View().buckets == old(View()).buckets;
      assert View().counters == old(View()).counters[key := entry.View()];
      match outcome
      case Admitted => r := Pass;
      case CapReached(retry) => r := TooManyRequests(retry);
    }

    method RateLimitMiddleware(key: string, now: real, stamp: int) returns (r: Response)
      requires Valid()
      modifies this, rateBuckets.Values, dailyCounts.Values
      ensures Valid()
      ensures (r, View()) == RequestStep(config, old(View()), key, now, stamp)
    {
      r := PassBucket(key, now);
      if r != Pass {
        return;
      }
      r := PassDaily(key, stamp);
    }
  }

  // ---------------------------------------------------------------- keys do not interfere

  function RunGates(cfg: Config, gates: seq<Gate>): Limits
  {
    if gates == [] then Limits(map[], map[]) else GateStep(cfg, RunGates(cfg, Front(gates)), Last(gates)).1
  }

  /** The bucket instants of one key, in order. */
  function TimesOf(gates: seq<Gate>, key: string): seq<real>
  {
    if gates == [] then []
    else
      var g := Last(gates);
      TimesOf(Front(gates), key) + if g.BucketGate? && g.key == key then [g.now] else []
  }

  /** The daily stamps of one key, in order. */
  function StampsOf(gates: seq<Gate>, key: string): seq<int>
  {
    if gates == [] then []
    else
      var g := Last(gates);
      StampsOf(Front(gates), key) + if g.DailyGate? && g.key == key then [g.stamp] else []
  }

  /** In every interleaving a key's bucket is what its own calls alone produce. */
  lemma {:induction false} BucketsAreIsolated(cfg: Config, gates: seq<Gate>, key: string)
    ensures var l, times := RunGates(cfg, gates), TimesOf(gates, key);
            && (key in l.buckets <==> times != [])
            && (times != [] ==> l.buckets[key] == RunBucket(NewBucket(cfg.maxPerMinute, times[0]), times))
    decreases |gates|
  {
    if gates != [] {
      BucketsAreIsolated(cfg, Front(gates), key);
      var g, earlier := Last(gates), TimesOf(Front(gates), key);
      if g.BucketGate? && g.key == key {
        var times := earlier + [g.now];
        assert TimesOf(gates, key) == times && Front(times) == earlier && Last(times) == g.now;
        assert earlier != [] ==> times[0] == earlier[0];
        var b := NewBucket(cfg.maxPerMinute, times[0]);
        assert BucketFor(cfg, RunGates(cfg, Front(gates)), key, g.now) == RunBucket(b, earlier);
      } else {
        assert TimesOf(gates, key) == earlier;
      }
    }
  }

  /** In every interleaving a key's daily counter is what its own stamps alone produce. */
  lemma {:induction false} CountersAreIsolated(cfg: Config, gates: seq<Gate>, key: string)
    ensures var l, stamps := RunGates(cfg, gates), StampsOf(gates, key);
            && (key in l.counters <==> stamps != [])
            && (stamps != [] ==> l.counters[key] == RunCounter(NewCounter(stamps[0]), stamps, cfg.dailyCap))
    decreases |gates|
  {
    if gates != [] {
      CountersAreIsolated(cfg, Front(gates), key);
      var g, earlier := Last(gates), StampsOf(Front(gates), key);
      if g.DailyGate? && g.key == key {
        var stamps := earlier + [g.stamp];
        assert StampsOf(gates, key) == stamps && Front(stamps) == earlier && Last(stamps) == g.stamp;
        assert earlier != [] ==> stamps[0] == earlier[0];
        var c := NewCounter(stamps[0]);
        assert CounterFor(RunGates(cfg, Front(gates)), key, g.stamp) == RunCounter(c, earlier, cfg.dailyCap);
      } else {
        assert StampsOf(gates, key) == earlier;
      }
    }
  }

  /** So the answer to a call depends only on that key's own earlier calls at the same gate. */
  lemma {:induction false} AnswerDependsOnOwnCalls(cfg: Config, xs: seq<Gate>, ys: seq<Gate>, gate: Gate)
    requires gate.BucketGate? ==> TimesOf(xs, gate.key) == TimesOf(ys, gate.key)
    requires gate.DailyGate? ==> StampsOf(xs, gate.key) == StampsOf(ys, gate.key)
    ensures GateStep(cfg, RunGates(cfg, xs), gate).0 == GateStep(cfg, RunGates(cfg, ys), gate).0
  {
    BucketsAreIsolated(cfg, xs, gate.key);
    BucketsAreIsolated(cfg, ys, gate.key);
    CountersAreIsolated(cfg, xs, gate.key);
    CountersAreIsolated(cfg, ys, gate.key);
  }

  /** How many calls of a key passed the daily gate with the counter standing at `date`. */
  function PassesCharged(cfg: Config, gates: seq<Gate>, key: string, date: int): nat
  {
    if gates == [] then 0
    else
      var g, step := Last(gates), GateStep(cfg, RunGates(cfg, Front(gates)), Last(gates));
      PassesCharged(cfg, Front(gates), key, date) +
      if g.DailyGate? && g.key == key && step.0 == Pass && step.1.counters[key].date == date then 1 else 0
  }

  /** How many calls of a key with a stamp of UTC day `day` passed the daily gate. */
  function PassesOnDay(cfg: Config, gates: seq<Gate>, key: string, day: int): nat
  {
    if gates == [] then 0
    else
      var g := Last(gates);
      PassesOnDay(cfg, Front(gates), key, day) +
      if g.DailyGate? && g.key == key && Day(g.stamp) == day && GateStep(cfg, RunGates(cfg, Front(gates)), g).0 == Pass
      then 1 else 0
  }

  /** One more call of the key at the daily gate: passed exactly when the key's counter admits it. */
  lemma {:induction false} PassesSnoc(cfg: Config, gates: seq<Gate>, key: string, c: Counter, date: int)
    requires gates != [] && Last(gates).DailyGate? && Last(gates).key == key
    requires CounterFor(RunGates(cfg, Front(gates)), key, Last(gates).stamp) == c
    ensures var stamp := Last(gates).stamp;
            && PassesCharged(cfg, gates, key, date) == PassesCharged(cfg, Front(gates), key, date) +
               (if Admits(c, stamp, cfg.dailyCap) && RollOver(c, stamp).date == date then 1 else 0)
            && PassesOnDay(cfg, gates, key, date) == PassesOnDay(cfg, Front(gates), key, date) +
               (if Admits(c, stamp, cfg.dailyCap) && Day(stamp) == date then 1 else 0)
  {
  }

  lemma {:induction false} AdmissionsSnoc(c: Counter, stamps: seq<int>, stamp: int, cap: nat, date: int)
    ensures var before := RunCounter(c, stamps, cap);
            && ChargedTo(c, stamps + [stamp], cap, date) == ChargedTo(c, stamps, cap, date) +
               (if Admits(before, stamp, cap) && RollOver(before, stamp).date == date then 1 else 0)
            && AdmittedOnDay(c, stamps + [stamp], cap, date) == AdmittedOnDay(c, stamps, cap, date) +
               (if Admits(before, stamp, cap) && Day(stamp) == date then 1 else 0)
  {
    assert Front(stamps + [stamp]) == stamps;
  }

  lemma {:induction false} PassesSkip(cfg: Config, gates: seq<Gate>, key: string, date: int)
    requires gates != [] && !(Last(gates).DailyGate? && Last(gates).key == key)
    ensures StampsOf(gates, key) == StampsOf(Front(gates), key)
    ensures PassesCharged(cfg, gates, key, date) == PassesCharged(cfg, Front(gates), key, date)
    ensures PassesOnDay(cfg, gates, key, date) == PassesOnDay(cfg, Front(gates), key, date)
  {
  }

  /** Before a call of the key at the daily gate, its counter is what its earlier stamps produce. */
  lemma {:induction false} CounterBefore(cfg: Config, gates: seq<Gate>, key: string, stamp: int)
    ensures var stamps := StampsOf(gates, key);
            CounterFor(RunGates(cfg, gates), key, stamp) ==
            RunCounter(NewCounter((stamps + [stamp])[0]), stamps, cfg.dailyCap)
  {
    CountersAreIsolated(cfg, gates, key);
  }

  /** What a key gets through the shared daily gate is what its own counter admits of its own stamps. */
  lemma {:induction false} PassesAreAdmissions(cfg: Config, gates: seq<Gate>, key: string, first: int, date: int)
    requires StampsOf(gates, key) != [] ==> StampsOf(gates, key)[0] == first
    ensures PassesCharged(cfg, gates, key, date) == ChargedTo(NewCounter(first), StampsOf(gates, key), cfg.dailyCap, date)
    ensures PassesOnDay(cfg, gates, key, date) == AdmittedOnDay(NewCounter(first), StampsOf(gates, key), cfg.dailyCap, date)
    decreases |gates|
  {
    if gates == [] {
    } else if Last(gates).DailyGate? && Last(gates).key == key {
      var earlier, stamp := StampsOf(Front(gates), key), Last(gates).stamp;
      assert StampsOf(gates, key) == earlier + [stamp];
      assert earlier != [] ==> (earlier + [stamp])[0] == earlier[0];
      PassesAreAdmissions(cfg, Front(gates), key, first, date);
      CounterBefore(cfg, Front(gates), key, stamp);
      PassesSnoc(cfg, gates, key, RunCounter(NewCounter(first), earlier, cfg.dailyCap), date);
      AdmissionsSnoc(NewCounter(first), earlier, stamp, cfg.dailyCap, date);
    } else {
      PassesSkip(cfg, gates, key, date);
      PassesAreAdmissions(cfg, Front(gates), key, first, date);
    }
  }

  /**
   * In every interleaving of all keys, the daily gate lets at most `dailyCap` calls of a key
   * through per counter date, and per UTC day exactly the in-time stamps of that key.
   */
  lemma {:induction false} KeyCapHolds(cfg: Config, gates: seq<Gate>, key: string, first: int, date: int)
    requires cfg.dailyCap <= U32_MAX
    requires StampsOf(gates, key) != [] ==> StampsOf(gates, key)[0] == first
    ensures PassesCharged(cfg, gates, key, date) <= cfg.dailyCap
    ensures PassesOnDay(cfg, gates, key, date) == InTimeOnDay(first, StampsOf(gates, key), cfg.dailyCap, date)
    ensures NonDecreasing(first, StampsOf(gates, key)) ==> PassesOnDay(cfg, gates, key, date) <= cfg.dailyCap
  {
    var stamps := StampsOf(gates, key);
    PassesAreAdmissions(cfg, gates, key, first, date);
    NoDateOvercharged(first, stamps, cfg.dailyCap, date);
    AdmittedIsInTime(first, stamps, cfg.dailyCap, date);
    if NonDecreasing(first, stamps) {
      DailyCapHolds(first, stamps, cfg.dailyCap, date);
    }
  }

  /** The instants at which a key passed the bucket gate of the middleware. */
  function PassTimes(cfg: Config, gates: seq<Gate>, key: string): seq<real>
  {
    if gates == [] then []
    else
      var g := Last(gates);
      PassTimes(cfg, Front(gates), key) +
      if g.BucketGate? && g.key == key && GateStep(cfg, RunGates(cfg, Front(gates)), g).0 == Pass then [g.now] else []
  }

  lemma {:induction false} PassIffAdmitted(cfg: Config, l: Limits, key: string, now: real)
    ensures GateStep(cfg, l, BucketGate(key, now)).0 == Pass <==> RateLimit.Admits(BucketFor(cfg, l, key, now), now)
  {
  }

  lemma {:induction false} GrantsSnoc(b: Bucket, times: seq<real>, t: real)
    ensures GrantTimes(b, times + [t]) ==
            GrantTimes(b, times) + if RateLimit.Admits(RunBucket(b, times), t) then [t] else []
  {
    assert Front(times + [t]) == times;
  }

  /** What a key gets through the shared middleware is what its own bucket grants its own calls. */
  lemma {:induction false} PassesAreGrants(cfg: Config, gates: seq<Gate>, key: string, first: real)
    requires TimesOf(gates, key) != [] ==> TimesOf(gates, key)[0] == first
    ensures PassTimes(cfg, gates, key) == GrantTimes(NewBucket(cfg.maxPerMinute, first), TimesOf(gates, key))
    decreases |gates|
  {
    if gates != [] {
      var g, init := Last(gates), Front(gates);
      var earlier, l := TimesOf(init, key), RunGates(cfg, init);
      assert TimesOf(gates, key) == earlier + if g.BucketGate? && g.key == key then [g.now] else [];
      assert earlier != [] ==> TimesOf(gates, key)[0] == earlier[0];
      PassesAreGrants(cfg, init, key, first);
      if g.BucketGate? && g.key == key {
        BucketsAreIsolated(cfg, init, key);
        assert BucketFor(cfg, l, key, g.now) == RunBucket(NewBucket(cfg.maxPerMinute, first), earlier);
        PassIffAdmitted(cfg, l, key, g.now);
        GrantsSnoc(NewBucket(cfg.maxPerMinute, first), earlier, g.now);
      } else {
        assert TimesOf(gates, key) == earlier;
      }
    }
  }

  lemma {:induction false} TimesConcat(xs: seq<Gate>, ys: seq<Gate>, key: string)
    ensures TimesOf(xs + ys, key) == TimesOf(xs, key) + TimesOf(ys, key)
    decreases |ys|
  {
    if ys == [] {
      assert xs + ys == xs;
    } else {
      assert Front(xs + ys) == xs + Front(ys) && Last(xs + ys) == Last(ys);
      TimesConcat(xs, Front(ys), key);
    }
  }

  lemma {:induction false} GrantsConcat(b: Bucket, xs: seq<real>, ys: seq<real>)
    ensures RunBucket(b, xs + ys) == RunBucket(RunBucket(b, xs), ys)
    ensures GrantTimes(b, xs + ys) == GrantTimes(b, xs) + GrantTimes(RunBucket(b, xs), ys)
    decreases |ys|
  {
    if ys == [] {
      assert xs + ys == xs;
    } else {
      assert Front(xs + ys) == xs + Front(ys) && Last(xs + ys) == Last(ys);
      GrantsConcat(b, xs, Front(ys));
    }
  }

  /**
   * In every interleaving of all keys, the calls one key gets through the bucket gate in a
   * window `[s, t]` number at most its per-minute limit plus the refill of that window.
   */
  lemma {:induction false} KeyWindowBound(
    cfg: Config, before: seq<Gate>, during: seq<Gate>, key: string, first: real, s: real, t: real)
    requires TimesOf(before + during, key) != [] ==> TimesOf(before + during, key)[0] == first
    requires RunUntil(NewBucket(cfg.maxPerMinute, first), TimesOf(before, key), s) && s <= t
    requires Monotone(s, TimesOf(during, key)) && forall i :: 0 <= i < |TimesOf(during, key)| ==> TimesOf(during, key)[i] <= t
    ensures |PassTimes(cfg, before + during, key)| - |PassTimes(cfg, before, key)| >= 0
    ensures (|PassTimes(cfg, before + during, key)| - |PassTimes(cfg, before, key)|) as real <=
            cfg.maxPerMinute as real + Gain(cfg.maxPerMinute as real / 60.0, s, t)
  {
    var b := NewBucket(cfg.maxPerMinute, first);
    TimesConcat(before, during, key);
    PassesAreGrants(cfg, before + during, key, first);
    PassesAreGrants(cfg, before, key, first);
    GrantsConcat(b, TimesOf(before, key), TimesOf(during, key));
    WindowBound(b, TimesOf(before, key), TimesOf(during, key), s, t);
  }

  // ---------------------------------------------------------------- whole requests

  datatype Request = Request(key: string, now: real, stamp: int)

  function Answer(cfg: Config, l: Limits, r: Request): (Response, Limits)
  {
    RequestStep(cfg, l, r.key, r.now, r.stamp)
  }

  function RunRequests(cfg: Config, requests: seq<Request>): Limits
  {
    if requests == [] then Limits(map[], map[])
    else Answer(cfg, RunRequests(cfg, Front(requests)), Last(requests)).1
  }

  predicate BucketAdmits(cfg: Config, l: Limits, r: Request) { RateLimit.Admits(BucketFor(cfg, l, r.key, r.now), r.now) }

  predicate CounterAdmits(cfg: Config, l: Limits, r: Request) { Admits(CounterFor(l, r.key, r.stamp), r.stamp, cfg.dailyCap) }

  /** A request passes exactly if both gates admit it; refused by the bucket, it leaves every counter as it was. */
  lemma {:induction false} RequestPassIff(cfg: Config, l: Limits, r: Request)
    ensures Answer(cfg, l, r).0 == Pass <==> BucketAdmits(cfg, l, r) && CounterAdmits(cfg, l, r)
    ensures !BucketAdmits(cfg, l, r) ==> Answer(cfg, l, r).1.counters == l.counters
    ensures BucketAdmits(cfg, l, r) ==>
              Answer(cfg, l, r).1.counters == l.counters[r.key := Increment(CounterFor(l, r.key, r.stamp), r.stamp, cfg.dailyCap).1]
    ensures Answer(cfg, l, r).1.buckets == l.buckets[r.key := Consume(BucketFor(cfg, l, r.key, r.now), r.now).1]
  {
  }

  /** The gates a run of requests goes through: the bucket each time, the counter if the bucket admitted. */
  function GatesOf(cfg: Config, requests: seq<Request>): seq<Gate>
  {
    if requests == [] then []
    else
      var r := Last(requests);
      GatesOf(cfg, Front(requests)) + [BucketGate(r.key, r.now)] +
      if BucketAdmits(cfg, RunRequests(cfg, Front(requests)), r) then [DailyGate(r.key, r.stamp)] else []
  }

  lemma {:induction false} RunGatesSnoc(cfg: Config, gates: seq<Gate>, g: Gate)
    ensures RunGates(cfg, gates + [g]) == GateStep(cfg, RunGates(cfg, gates), g).1
  {
    assert Front(gates + [g]) == gates;
  }

  /** A run of whole requests is the run of its gates, so every law about gates is one about requests. */
  lemma {:induction false} RequestsAreGates(cfg: Config, requests: seq<Request>)
    ensures RunRequests(cfg, requests) == RunGates(cfg, GatesOf(cfg, requests))
    decreases |requests|
  {
    if requests != [] {
      var before, r := GatesOf(cfg, Front(requests)), Last(requests);
      RequestsAreGates(cfg, Front(requests));
      RunGatesSnoc(cfg, before, BucketGate(r.key, r.now));
      if BucketAdmits(cfg, RunRequests(cfg, Front(requests)), r) {
        RunGatesSnoc(cfg, before + [BucketGate(r.key, r.now)], DailyGate(r.key, r.stamp));
      } else {
        assert before + [BucketGate(r.key, r.now)] + [] == before + [BucketGate(r.key, r.now)];
      }
    }
  }

  /** How many requests of a key were answered `Pass`. */
  function Passed(cfg: Config, requests: seq<Request>, key: string): nat
  {
    if requests == [] then 0
    else
      var r := Last(requests);
      Passed(cfg, Front(requests), key) +
      if r.key == key && Answer(cfg, RunRequests(cfg, Front(requests)), r).0 == Pass then 1 else 0
  }

  /** The same for one counter date. */
  function PassedWhile(cfg: Config, requests: seq<Request>, key: string, date: int): nat
  {
    if requests == [] then 0
    else
      var r, before := Last(requests), RunRequests(cfg, Front(requests));
      PassedWhile(cfg, Front(requests), key, date) +
      if r.key == key && Answer(cfg, before, r).0 == Pass && RollOver(CounterFor(before, key, r.stamp), r.stamp).date == date
      then 1 else 0
  }

  /** The same for one UTC day. */
  function PassedOnDay(cfg: Config, requests: seq<Request>, key: string, day: int): nat
  {
    if requests == [] then 0
    else
      var r := Last(requests);
      PassedOnDay(cfg, Front(requests), key, day) +
      if r.key == key && Day(r.stamp) == day && Answer(cfg, RunRequests(cfg, Front(requests)), r).0 == Pass then 1 else 0
  }

  lemma {:induction false} BucketGateCounts(cfg: Config, gates: seq<Gate>, key: string, now: real, other: string, date: int)
    ensures var more := gates + [BucketGate(other, now)];
            && PassesCharged(cfg, more, key, date) == PassesCharged(cfg, gates, key, date)
            && PassesOnDay(cfg, more, key, date) == PassesOnDay(cfg, gates, key, date)
            && StampsOf(more, key) == StampsOf(gates, key)
  {
    var more := gates + [BucketGate(other, now)];
    assert Front(more) == gates && Last(more) == BucketGate(other, now);
    PassesSkip(cfg, more, key, date);
  }

  /** One daily gate, for the key itself or another one. */
  lemma {:induction false} DailyGateCounts(cfg: Config, gates: seq<Gate>, key: string, other: string, stamp: int, date: int)
    ensures var more, c := gates + [DailyGate(other, stamp)], CounterFor(RunGates(cfg, gates), other, stamp);
            var passed := other == key && Admits(c, stamp, cfg.dailyCap);
            && PassesCharged(cfg, more, key, date) ==
               PassesCharged(cfg, gates, key, date) + (if passed && RollOver(c, stamp).date == date then 1 else 0)
            && PassesOnDay(cfg, more, key, date) ==
               PassesOnDay(cfg, gates, key, date) + (if passed && Day(stamp) == date then 1 else 0)
  {
    var more := gates + [DailyGate(other, stamp)];
    assert Front(more) == gates && Last(more) == DailyGate(other, stamp);
    if other == key {
      PassesSnoc(cfg, more, key, CounterFor(RunGates(cfg, gates), key, stamp), date);
    } else {
      PassesSkip(cfg, more, key, date);
    }
  }

  lemma {:induction false} BucketStepKeepsCounters(cfg: Config, l: Limits, key: string, now: real)
    ensures GateStep(cfg, l, BucketGate(key, now)).1.counters == l.counters
  {
  }

  /** The requests answered `Pass` are the passes of the daily gate. */
  lemma {:induction false} PassedAreDailyPasses(cfg: Config, requests: seq<Request>, key: string, date: int)
    ensures PassedWhile(cfg, requests, key, date) == PassesCharged(cfg, GatesOf(cfg, requests), key, date)
    ensures PassedOnDay(cfg, requests, key, date) == PassesOnDay(cfg, GatesOf(cfg, requests), key, date)
    decreases |requests|
  {
    if requests != [] {
      var gates, r, l := GatesOf(cfg, Front(requests)), Last(requests), RunRequests(cfg, Front(requests));
      var mid := gates + [BucketGate(r.key, r.now)];
      PassedAreDailyPasses(cfg, Front(requests), key, date);
      RequestsAreGates(cfg, Front(requests));
      RequestPassIff(cfg, l, r);
      BucketGateCounts(cfg, gates, key, r.now, r.key, date);
      RunGatesSnoc(cfg, gates, BucketGate(r.key, r.now));
      BucketStepKeepsCounters(cfg, l, r.key, r.now);
      if BucketAdmits(cfg, l, r) {
        DailyGateCounts(cfg, mid, key, r.key, r.stamp, date);
      } else {
        assert GatesOf(cfg, requests) == mid;
      }
    }
  }

  /** The instants of a key's requests, in order. */
  function RequestTimes(requests: seq<Request>, key: string): seq<real>
  {
    if requests == [] then []
    else RequestTimes(Front(requests), key) + if Last(requests).key == key then [Last(requests).now] else []
  }

  /** What one more request adds to the gates. */
  lemma {:induction false} GatesSnoc(cfg: Config, requests: seq<Request>, r: Request)
    ensures var met := GatesOf(cfg, requests) + [BucketGate(r.key, r.now)];
            GatesOf(cfg, requests + [r]) ==
            if BucketAdmits(cfg, RunRequests(cfg, requests), r) then met + [DailyGate(r.key, r.stamp)] else met
  {
    assert Front(requests + [r]) == requests;
    var met := GatesOf(cfg, requests) + [BucketGate(r.key, r.now)];
    assert met + [] == met;
  }

  lemma {:induction false} TimesSnoc(gates: seq<Gate>, g: Gate, key: string)
    ensures TimesOf(gates + [g], key) == TimesOf(gates, key) + if g.BucketGate? && g.key == key then [g.now] else []
  {
    assert Front(gates + [g]) == gates;
  }

  lemma {:induction false} RequestMeetsBucket(cfg: Config, requests: seq<Request>, r: Request, key: string)
    ensures TimesOf(GatesOf(cfg, requests + [r]), key) ==
            TimesOf(GatesOf(cfg, requests), key) + if r.key == key then [r.now] else []
  {
    var gates := GatesOf(cfg, requests);
    var met := gates + [BucketGate(r.key, r.now)];
    GatesSnoc(cfg, requests, r);
    TimesSnoc(gates, BucketGate(r.key, r.now), key);
    TimesSnoc(met, DailyGate(r.key, r.stamp), key);
    assert TimesOf(met, key) + [] == TimesOf(met, key);
  }

  /** Every request meets its bucket exactly once. */
  lemma {:induction false} RequestsMeetBucket(cfg: Config, requests: seq<Request>, key: string)
    ensures TimesOf(GatesOf(cfg, requests), key) == RequestTimes(requests, key)
    decreases |requests|
  {
    if requests != [] {
      RequestsMeetBucket(cfg, Front(requests), key);
      RequestMeetsBucket(cfg, Front(requests), Last(requests), key);
      assert Front(requests) + [Last(requests)] == requests;
    }
  }

  lemma {:induction false} PassTimesSnoc(cfg: Config, gates: seq<Gate>, key: string, g: Gate)
    ensures PassTimes(cfg, gates + [g], key) == PassTimes(cfg, gates, key) +
            (if g.BucketGate? && g.key == key && RateLimit.Admits(BucketFor(cfg, RunGates(cfg, gates), key, g.now), g.now)
             then [g.now] else [])
  {
    assert Front(gates + [g]) == gates;
    if g.BucketGate? && g.key == key {
      PassIffAdmitted(cfg, RunGates(cfg, gates), key, g.now);
    }
  }

  /** The bucket passes one more request adds. */
  lemma {:induction false} BucketPassesSnoc(cfg: Config, requests: seq<Request>, r: Request, key: string)
    ensures |PassTimes(cfg, GatesOf(cfg, requests + [r]), key)| == |PassTimes(cfg, GatesOf(cfg, requests), key)| +
            (if r.key == key && BucketAdmits(cfg, RunRequests(cfg, requests), r) then 1 else 0)
  {
    var gates := GatesOf(cfg, requests);
    GatesSnoc(cfg, requests, r);
    RequestsAreGates(cfg, requests);
    PassTimesSnoc(cfg, gates, key, BucketGate(r.key, r.now));
    PassTimesSnoc(cfg, gates + [BucketGate(r.key, r.now)], key, DailyGate(r.key, r.stamp));
  }

  /** One more request adds at most as many passes as bucket passes. */
  lemma {:induction false} PassedWithinBucket(cfg: Config, requests: seq<Request>, r: Request, key: string)
    ensures Passed(cfg, requests + [r], key) - Passed(cfg, requests, key) <=
            |PassTimes(cfg, GatesOf(cfg, requests + [r]), key)| - |PassTimes(cfg, GatesOf(cfg, requests), key)|
  {
    assert Front(requests + [r]) == requests && Last(requests + [r]) == r;
    RequestPassIff(cfg, RunRequests(cfg, requests), r);
    BucketPassesSnoc(cfg, requests, r, key);
  }

  lemma {:induction false} PassedWithinWindow(cfg: Config, before: seq<Request>, during: seq<Request>, key: string)
    ensures Passed(cfg, before + during, key) - Passed(cfg, before, key) <=
            |PassTimes(cfg, GatesOf(cfg, before + during), key)| - |PassTimes(cfg, GatesOf(cfg, before), key)|
    ensures GatesOf(cfg, before) <= GatesOf(cfg, before + during)
    decreases |during|
  {
    if during == [] {
      assert before + during == before;
    } else {
      assert before + during == (before + Front(during)) + [Last(during)];
      PassedWithinWindow(cfg, before, Front(during), key);
      PassedWithinBucket(cfg, before + Front(during), Last(during), key);
      assert Front(before + during) == before + Front(during);
    }
  }

  /** The gates of a longer run continue those of the shorter one with the later instants. */
  lemma {:induction false} LaterGates(cfg: Config, before: seq<Request>, during: seq<Request>, key: string) returns (late: seq<Gate>)
    ensures GatesOf(cfg, before + during) == GatesOf(cfg, before) + late
    ensures TimesOf(late, key) == RequestTimes(during, key)
  {
    var early, all := GatesOf(cfg, before), GatesOf(cfg, before + during);
    PassedWithinWindow(cfg, before, during, key);
    late := all[|early|..];
    assert all == early + late;
    RequestsMeetBucket(cfg, before, key);
    RequestsMeetBucket(cfg, before + during, key);
    RequestTimesConcat(before, during, key);
    TimesConcat(early, late, key);
    SamePrefix(TimesOf(early, key), TimesOf(late, key), RequestTimes(during, key));
  }

  lemma {:induction false} SamePrefix(a: seq<real>, b: seq<real>, c: seq<real>)
    requires a + b == a + c
    ensures b == c
  {
    assert b == (a + b)[|a|..] && c == (a + c)[|a|..];
  }

  lemma {:induction false} RequestTimesConcat(xs: seq<Request>, ys: seq<Request>, key: string)
    ensures RequestTimes(xs + ys, key) == RequestTimes(xs, key) + RequestTimes(ys, key)
    decreases |ys|
  {
    if ys == [] {
      assert xs + ys == xs;
    } else {
      assert Front(xs + ys) == xs + Front(ys) && Last(xs + ys) == Last(ys);
      RequestTimesConcat(xs, Front(ys), key);
    }
  }

  /** In every run of requests of all keys, the requests of one key that pass obey its daily cap. */
  lemma {:induction false} RequestCapHolds(cfg: Config, requests: seq<Request>, key: string, first: int, date: int)
    requires cfg.dailyCap <= U32_MAX
    requires StampsOf(GatesOf(cfg, requests), key) != [] ==> StampsOf(GatesOf(cfg, requests), key)[0] == first
    ensures PassedWhile(cfg, requests, key, date) <= cfg.dailyCap
    ensures PassedOnDay(cfg, requests, key, date) ==
            InTimeOnDay(first, StampsOf(GatesOf(cfg, requests), key), cfg.dailyCap, date)
    ensures NonDecreasing(first, StampsOf(GatesOf(cfg, requests), key)) ==> PassedOnDay(cfg, requests, key, date) <= cfg.dailyCap
  {
    PassedAreDailyPasses(cfg, requests, key, date);
    KeyCapHolds(cfg, GatesOf(cfg, requests), key, first, date);
  }

  /** And its burst law: in a window `[s, t]` at most the per-minute limit plus the refill of the window pass. */
  lemma {:induction false} RequestWindowBound(
    cfg: Config, before: seq<Request>, during: seq<Request>, key: string, first: real, s: real, t: real)
    requires RequestTimes(before + during, key) != [] ==> RequestTimes(before + during, key)[0] == first
    requires RunUntil(NewBucket(cfg.maxPerMinute, first), RequestTimes(before, key), s) && s <= t
    requires Monotone(s, RequestTimes(during, key))
    requires forall i :: 0 <= i < |RequestTimes(during, key)| ==> RequestTimes(during, key)[i] <= t
    ensures (Passed(cfg, before + during, key) - Passed(cfg, before, key)) as real <=
            cfg.maxPerMinute as real + Gain(cfg.maxPerMinute as real / 60.0, s, t)
  {
    PassedWithinWindow(cfg, before, during, key);
    var late := LaterGates(cfg, before, during, key);
    RequestsMeetBucket(cfg, before, key);
    RequestsMeetBucket(cfg, before + during, key);
    KeyWindowBound(cfg, GatesOf(cfg, before), late, key, first, s, t);
  }

  /**
   * The whole limiter from what a key did alone: after any run of requests of all keys, a request
   * passes if and only if one more grant keeps every window of the key's bucket grants within
   * limit plus refill, and it is among the first `dailyCap` that reached the counter in its epoch.
   */
  lemma {:induction false} RequestAdmittedIff(cfg: Config, requests: seq<Request>, r: Request, first: real)
    requires cfg.dailyCap <= U32_MAX && (RequestTimes(requests, r.key) + [r.now])[0] == first
    requires RunUntil(NewBucket(cfg.maxPerMinute, first), RequestTimes(requests, r.key), r.now)
    ensures var gates := GatesOf(cfg, requests);
            var stamps := StampsOf(gates, r.key) + [r.stamp];
            Answer(cfg, RunRequests(cfg, requests), r).0 == Pass <==>
            && WindowsAllow(cfg.maxPerMinute as real, cfg.maxPerMinute as real / 60.0, PassTimes(cfg, gates, r.key), r.now)
            && Rank(stamps[0], StampsOf(gates, r.key), Epoch(stamps[0], stamps)) < cfg.dailyCap
  {
    var gates, l := GatesOf(cfg, requests), RunRequests(cfg, requests);
    var b, times := NewBucket(cfg.maxPerMinute, first), RequestTimes(requests, r.key);
    RequestsAreGates(cfg, requests);
    RequestsMeetBucket(cfg, requests, r.key);
    RequestPassIff(cfg, l, r);
    BucketsAreIsolated(cfg, gates, r.key);
    assert times != [] ==> (times + [r.now])[0] == times[0];
    assert BucketFor(cfg, l, r.key, r.now) == RunBucket(b, times);
    AllowedIffWindowsAllow(b, times, r.now);
    PassesAreGrants(cfg, gates, r.key, first);
    CounterBefore(cfg, gates, r.key, r.stamp);
    AdmittedIff((StampsOf(gates, r.key) + [r.stamp])[0], StampsOf(gates, r.key), r.stamp, cfg.dailyCap);
  }

  // ---------------------------------------------------------------- the hints a client gets

  /** A refusal by the daily gate carries a hint that is within a second of midnight and, with one second more, passes it. */
  lemma {:induction false} DailyHint(cfg: Config, l: Limits, key: string, stamp: int)
    requires GateStep(cfg, l, DailyGate(key, stamp)).0.TooManyRequests?
    ensures var hint := GateStep(cfg, l, DailyGate(key, stamp)).0.retryAfterSeconds;
            && 1 <= hint <= 86_400
            && -NANOS_PER_SECOND < UntilMidnight(stamp) - hint * NANOS_PER_SECOND < NANOS_PER_SECOND
            && Day(stamp + (hint + 1) * NANOS_PER_SECOND) > Day(stamp)
  {
    MidnightHint(stamp);
  }

  /** A refusal by the bucket gate carries the least whole number of seconds after which that key's bucket admits. */
  lemma {:induction false} BucketHint(cfg: Config, gates: seq<Gate>, key: string, now: real, first: real, j: nat)
    requires cfg.maxPerMinute >= 1 && (TimesOf(gates, key) + [now])[0] == first
    requires RunUntil(NewBucket(cfg.maxPerMinute, first), TimesOf(gates, key), now)
    requires GateStep(cfg, RunGates(cfg, gates), BucketGate(key, now)).0.TooManyRequests?
    ensures var (response, after) := GateStep(cfg, RunGates(cfg, gates), BucketGate(key, now));
            && 1 <= response.retryAfterSeconds <= 60
            && (GateStep(cfg, after, BucketGate(key, now + j as real)).0 == Pass <==> j >= response.retryAfterSeconds)
  {
    var b, times := NewBucket(cfg.maxPerMinute, first), TimesOf(gates, key);
    BucketsAreIsolated(cfg, gates, key);
    assert times != [] ==> (times + [now])[0] == times[0];
    var e := RunBucket(b, times);
    assert BucketFor(cfg, RunGates(cfg, gates), key, now) == e;
    RunStaysSane(b, times);
    RetryAfterIsLeast(e, now, cfg.maxPerMinute);
    assert AllowedAfter(Consume(e, now).1, j) <==> j >= Consume(e, now).0.retryAfterSeconds;
  }
}
