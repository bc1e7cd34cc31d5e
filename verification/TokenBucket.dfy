/** The in-memory token bucket. A bucket of `capacity` tokens refills at
    `capacity` tokens per `interval` nanoseconds. Token counts are exact
    rationals: a level of n stands for n / interval tokens. */
module TokenBuckets {
  import opened Arith
  import opened Wrappers
  import opened Limiter

  datatype Bucket = Bucket(level: int, lastSeen: int)

  function Full(capacity: pos, interval: pos, now: int): Bucket {
    Bucket(capacity * interval, now)
  }

  function Refill(capacity: pos, interval: pos, b: Bucket, now: int): Bucket {
    var elapsed := now - b.lastSeen;
    Bucket(if elapsed > 0 then Min(capacity * interval, b.level + elapsed * capacity) else b.level, now)
  }

  /** How long `units` of level take to accrue, truncated to a nanosecond. */
  function DurationFor(capacity: pos, units: int): int {
    if units <= 0 then 0 else units / capacity
  }

  function Advance(capacity: pos, interval: pos, b: Bucket, now: int): (Bucket, Result) {
    var full := Refill(capacity, interval, b, now);
    var allowed := full.level >= interval;
    var left := if allowed then full.level - interval else full.level;
    (Bucket(left, now),
     Result(allowed, capacity,
            if allowed then left / interval else 0,
            DurationFor(capacity, capacity * interval - left),
            if allowed then 0 else DurationFor(capacity, interval - left)))
  }

  function Spec(capacity: pos, interval: pos): Algorithm<Bucket, int> {
    Algorithm((now: int) => Full(capacity, interval, now),
              (b: Bucket, now: int) => Advance(capacity, interval, b, now))
  }

  lemma RefillOnce(capacity: pos, interval: pos, b: Bucket, now: int)
    ensures Advance(capacity, interval, Refill(capacity, interval, b, now), now) == Advance(capacity, interval, b, now)
    ensures Refill(capacity, interval, b, now).lastSeen == now
  {
  }

  // ---- The limiter itself ----

  class BucketState {
    var level: int
    var lastSeen: int

    constructor (level: int, lastSeen: int)
      ensures this.level == level && this.lastSeen == lastSeen
    {
      this.level, this.lastSeen := level, lastSeen;
    }

    function Value(): Bucket
      reads this
    {
      Bucket(level, lastSeen)
    }
  }

  class TokenBucket {
    const capacity: pos
    const interval: pos
    var buckets: map<string, BucketState>

    constructor (capacity: pos, interval: pos)
      ensures Valid() && View() == map[]
      ensures this.capacity == capacity && this.interval == interval
    {
      this.capacity, this.interval := capacity, interval;
      buckets := map[];
    }

    /** Rejects a configuration that would deny every request or divide by zero. */
    static method New(capacity: int, interval: int) returns (tb: Option<TokenBucket>)
      ensures tb.None? <==> capacity <= 0 || interval <= 0
      ensures tb.Some? ==> fresh(tb.value) && tb.value.Valid() && tb.value.View() == map[]
      ensures tb.Some? ==> tb.value.capacity == capacity && tb.value.interval == interval
    {
      if capacity <= 0 || interval <= 0 {
        return None;
      }
      var made := new TokenBucket(capacity, interval);
      return Some(made);
    }

    /** No two keys share a bucket. */
    ghost predicate Valid()
      reads this
    {
      forall k, k' :: k in buckets && k' in buckets && k != k' ==> buckets[k] != buckets[k']
    }

    function View(): map<string, Bucket>
      reads this, set k | k in buckets :: buckets[k]
    {
      map k | k in buckets :: buckets[k].Value()
    }

    /** Spends one token of the key's bucket if it holds one. */
    method Allow(key: string, now: int) returns (res: Result)
      requires Valid()
      modifies `buckets, if key in buckets then {buckets[key]} else {}
      ensures Valid()
      ensures var (b, r) := Call(Spec(capacity, interval), Lookup(old(View()), key), now);
              View() == old(View())[key := b] && res == r
    {
      hide Advance, Refill;
      var b: BucketState;
      if key !in buckets {
        b := new BucketState(capacity * interval, now);
        buckets := buckets[key := b];
      } else {
        b := buckets[key];
        RefillOnce(capacity, interval, b.Value(), now);
        Replenish(b, now);
      }
      res := Spend(b);
    }

    method Spend(b: BucketState) returns (res: Result)
      modifies b
      ensures b.lastSeen == old(b.lastSeen)
      ensures (b.Value(), res) == Advance(capacity, interval, old(b.Value()), old(b.lastSeen))
    {
      var allowed, remaining, retryAfter := false, 0, 0;
      if b.level >= interval {
        b.level := b.level - interval;
        allowed := true;
        remaining := b.level / interval;
      } else {
        retryAfter := DurationFor(capacity, interval - b.level);
      }
      res := Result(allowed, capacity, remaining,
                    DurationFor(capacity, capacity * interval - b.level), retryAfter);
    }

    /** Credits the time since the bucket was last touched. */
    method Replenish(b: BucketState, now: int)
      modifies b
      ensures b.Value() == Refill(capacity, interval, old(b.Value()), now)
    {
      var elapsed := now - b.lastSeen;
      if elapsed > 0 {
        b.level := Min(capacity * interval, b.level + elapsed * capacity);
      }
      b.lastSeen := now;
    }
  }

  // ---- Polling ----

  lemma SilentDenials(capacity: pos, interval: pos)
    ensures DenialsAreSilent(Spec(capacity, interval), (b: Bucket, last: int) => b.lastSeen <= last)
  {
    hide Advance;
    var alg, sane := Spec(capacity, interval), (b: Bucket, last: int) => b.lastSeen <= last;
    forall now
      ensures sane(alg.unseen(now), now) && alg.advance(alg.unseen(now), now).1.allowed
    {
      FreshAdmits(capacity, interval, now);
    }
    forall b: Bucket, last: int, now: int | sane(b, last) && last <= now
      ensures SilentAt(alg, sane, b, now)
    {
      RefillsOnDenial(capacity, interval, b, now);
      forall later | now <= later && !Advance(capacity, interval, b, now).1.allowed
        ensures Advance(capacity, interval, Refill(capacity, interval, b, now), later) ==
                Advance(capacity, interval, b, later)
      {
        RefilledAnswersAlike(capacity, interval, b, now, later);
      }
    }
  }

  lemma FreshAdmits(capacity: pos, interval: pos, now: int)
    ensures Advance(capacity, interval, Full(capacity, interval, now), now).1.allowed
  {
    MulMono(1, capacity, interval);
  }

  lemma RefillsOnDenial(capacity: pos, interval: pos, b: Bucket, now: int)
    ensures var (next, r) := Advance(capacity, interval, b, now);
            next.lastSeen == now && (!r.allowed ==> next == Refill(capacity, interval, b, now))
  {
  }

  /** Refilling in two steps is refilling once. */
  lemma RefilledAnswersAlike(capacity: pos, interval: pos, b: Bucket, now: int, later: int)
    requires b.lastSeen <= now <= later
    ensures Advance(capacity, interval, Refill(capacity, interval, b, now), later) ==
            Advance(capacity, interval, b, later)
  {
    assert Refill(capacity, interval, Refill(capacity, interval, b, now), later) ==
           Refill(capacity, interval, b, later) by {
      RefillTwice(capacity * interval, b.level, (now - b.lastSeen) * capacity, (later - now) * capacity);
      MulMono(0, now - b.lastSeen, capacity);
      MulMono(0, later - now, capacity);
      assert (later - b.lastSeen) * capacity == (now - b.lastSeen) * capacity + (later - now) * capacity;
    }
  }

  lemma RefillTwice(cap: int, level: int, first: int, second: int)
    requires first >= 0 && second >= 0
    ensures Min(cap, Min(cap, level + first) + second) == Min(cap, level + (first + second))
  {
  }

  /** Polling is harmless: leaving denied calls out of a run changes no other answer. */
  lemma PollingIsHarmless(capacity: pos, interval: pos, ts: seq<int>, keep: seq<bool>)
    requires NonDecreasing(ts) && DropsDenials(Play(Spec(capacity, interval), ts).results, keep)
    ensures Play(Spec(capacity, interval), Kept(ts, keep)).results ==
            Kept(Play(Spec(capacity, interval), ts).results, keep)
  {
    SilentDenials(capacity, interval);
    var _ := DenialsLeaveNoTrace(Spec(capacity, interval), (b: Bucket, last: int) => b.lastSeen <= last, ts, keep);
  }

  // ---- Every answer ----

  /** Under any clock, every answer of every run is as the interface promises. */
  lemma AnswersAreWellFormed(capacity: pos, interval: pos, ts: seq<int>, i: nat)
    requires i < |ts|
    ensures WellFormed(Play(Spec(capacity, interval), ts).results[i], capacity)
  {
    hide Advance, WellFormed;
    var b := LastAnswer(capacity, interval, ts[..i + 1]);
    PlayPrefix(Spec(capacity, interval), ts, i + 1);
    assert Play(Spec(capacity, interval), ts).results[..i + 1][i] == Play(Spec(capacity, interval), ts).results[i];
    AnswerIsWellFormed(capacity, interval, b, ts[i]);
  }

  lemma AnswerIsWellFormed(capacity: pos, interval: pos, b: Bucket, now: int)
    requires b.level <= capacity * interval
    ensures WellFormed(Advance(capacity, interval, b, now).1, capacity)
  {
    hide Refill;
    RefillInBounds(capacity, interval, b, now);
    var full := Refill(capacity, interval, b, now).level;
    assert full - interval <= (capacity - 1) * interval;
    if full >= interval {
      FloorDivLaw(full - interval, interval, 0);
      FloorDivLaw(full - interval, interval, capacity);
    } else {
      FloorDivLaw(interval - full, capacity, 0);
    }
    FloorDivLaw(capacity * interval - full, capacity, 0);
    FloorDivLaw(capacity * interval - full + interval, capacity, 0);
  }

  lemma RefillInBounds(capacity: pos, interval: pos, b: Bucket, now: int)
    requires b.level <= capacity * interval
    ensures Refill(capacity, interval, b, now).level <= capacity * interval
  {
  }

  // ---- Remaining ----

  lemma {:induction false} AgainFrom(capacity: pos, interval: pos, level: int, now: int, n: nat)
    ensures Again(Spec(capacity, interval), Bucket(level, now), now, n).allowed <==> (n + 1) * interval <= level
    decreases n
  {
    var (next, r) := Advance(capacity, interval, Bucket(level, now), now);
    if n > 0 {
      AgainFrom(capacity, interval, next.level, now, n - 1);
      assert (n + 1) * interval == n * interval + interval;
      if !r.allowed {
        MulMono(1, n, interval);
      }
    }
  }

  /** Remaining is exactly the number of further requests that one instant admits. */
  lemma RemainingExact(capacity: pos, interval: pos)
    ensures RemainingIsExact(Spec(capacity, interval))
  {
    var alg := Spec(capacity, interval);
    forall b: Bucket, now: int
      ensures RemainingIsExactAt(alg, b, now)
    {
      var (next, r) := alg.advance(b, now);
      forall n: nat
        ensures Again(alg, next, now, n).allowed <==> n < r.remaining
      {
        AgainFrom(capacity, interval, next.level, now, n);
        FloorDivLaw(next.level, interval, n + 1);
        if !r.allowed {
          MulMono(1, n + 1, interval);
        }
      }
    }
  }

  // ---- The burst envelope ----

  /** How far the clock moved forward over a run; backward jumps count as nothing. */
  function Forward(ts: seq<int>): (d: nat)
  {
    if |ts| < 2 then 0
    else
      var n := |ts| - 1;
      Forward(ts[..n]) + Max(0, ts[n] - ts[n - 1])
  }

  lemma {:induction false} ForwardOnMonotoneClock(ts: seq<int>)
    requires ts != [] && NonDecreasing(ts)
    ensures Forward(ts) == ts[|ts| - 1] - ts[0]
  {
    if |ts| > 1 {
      ForwardOnMonotoneClock(ts[..|ts| - 1]);
    }
  }

  /** How many of a run's answers admitted the request. */
  function Passed(rs: seq<Result>): nat {
    if rs == [] then 0
    else Passed(rs[..|rs| - 1]) + (if rs[|rs| - 1].allowed then 1 else 0)
  }

  /** The level left to a client that has made every admission of `rs` since call
      j, if it held a full bucket then and was credited for all time since. */
  function Room(capacity: pos, interval: pos, ts: seq<int>, rs: seq<Result>, j: nat): int
    requires j <= |ts| && j <= |rs|
  {
    capacity * interval + capacity * Forward(ts[j..]) - interval * Passed(rs[j..])
  }

  lemma RoomAfterTick(capacity: pos, interval: pos, ts: seq<int>, now: int, rs: seq<Result>, j: nat)
    requires j < |ts| && j <= |rs|
    ensures Room(capacity, interval, ts + [now], rs, j) ==
            Room(capacity, interval, ts, rs, j) + Max(0, now - ts[|ts| - 1]) * capacity
  {
    var tail := ts[j..];
    assert (ts + [now])[j..] == tail + [now];
    assert (tail + [now])[..|tail|] == tail;
    var step := Max(0, now - ts[|ts| - 1]);
    assert capacity * (Forward(tail) + step) == capacity * Forward(tail) + step * capacity;
  }

  lemma RoomAfterAnswer(capacity: pos, interval: pos, ts: seq<int>, rs: seq<Result>, r: Result, j: nat)
    requires j <= |ts| && j <= |rs|
    ensures Room(capacity, interval, ts, rs + [r], j) ==
            Room(capacity, interval, ts, rs, j) - (if r.allowed then interval else 0)
  {
    var tail := rs[j..];
    assert (rs + [r])[j..] == tail + [r];
    assert (tail + [r])[..|tail|] == tail;
    assert interval * (Passed(tail) + 1) == interval * Passed(tail) + interval;
  }

  /** The level just before the last call's decision is the tightest of all the
      envelopes opened by the calls so far, whatever the clock did. */
  ghost predicate Tightest(capacity: pos, interval: pos, ts: seq<int>, rs: seq<Result>, level: int)
    requires |ts| <= |rs| + 1
  {
    && (forall j: nat :: j < |ts| ==> level <= Room(capacity, interval, ts, rs, j))
    && (exists j: nat :: j < |ts| && level == Room(capacity, interval, ts, rs, j))
  }

  /** The level the last call of a run finds once its refill is credited. */
  function LevelFound(capacity: pos, interval: pos, ts: seq<int>): int
    requires ts != []
  {
    var now := ts[|ts| - 1];
    match Play(Spec(capacity, interval), ts[..|ts| - 1]).state
    case None => capacity * interval
    case Some(b) => Refill(capacity, interval, b, now).level
  }

  lemma {:induction false} LevelIsTightest(capacity: pos, interval: pos, ts: seq<int>)
    requires ts != []
    ensures Tightest(capacity, interval, ts, Play(Spec(capacity, interval), ts[..|ts| - 1]).results,
                     LevelFound(capacity, interval, ts))
    ensures Play(Spec(capacity, interval), ts).state.value.lastSeen == ts[|ts| - 1]
    ensures var t := Play(Spec(capacity, interval), ts);
            && (t.results[|ts| - 1].allowed <==> LevelFound(capacity, interval, ts) >= interval)
            && t.state.value.level == LevelFound(capacity, interval, ts) -
                 (if t.results[|ts| - 1].allowed then interval else 0)
  {
    var n := |ts| - 1;
    var now := ts[n];
    var past := ts[..n];
    var level := LevelFound(capacity, interval, ts);
    if n == 0 {
      assert level == Room(capacity, interval, ts, [], 0);
    } else {
      LevelIsTightest(capacity, interval, past);
      TightestAfterAnswer(capacity, interval, past);
      var rs := Play(Spec(capacity, interval), past).results;
      TightestAfterTick(capacity, interval, past, now, rs, Play(Spec(capacity, interval), past).state.value.level);
      assert past + [now] == ts;
    }
  }

  lemma TightestAfterAnswer(capacity: pos, interval: pos, ts: seq<int>)
    requires ts != []
    requires var t := Play(Spec(capacity, interval), ts);
             var level := LevelFound(capacity, interval, ts);
             && Tightest(capacity, interval, ts, Play(Spec(capacity, interval), ts[..|ts| - 1]).results, level)
             && t.state.value.level == level - (if t.results[|ts| - 1].allowed then interval else 0)
    ensures var t := Play(Spec(capacity, interval), ts);
            Tightest(capacity, interval, ts, t.results, t.state.value.level)
  {
    var before := Play(Spec(capacity, interval), ts[..|ts| - 1]).results;
    var t := Play(Spec(capacity, interval), ts);
    assert t.results == before + [t.results[|ts| - 1]];
    TightestOn(capacity, interval, ts, before, t.results[|ts| - 1], LevelFound(capacity, interval, ts));
  }

  lemma TightestOn(capacity: pos, interval: pos, ts: seq<int>, rs: seq<Result>, r: Result, level: int)
    requires |ts| == |rs| + 1 && Tightest(capacity, interval, ts, rs, level)
    ensures Tightest(capacity, interval, ts, rs + [r], level - (if r.allowed then interval else 0))
  {
    hide Room;
    forall j: nat | j < |ts|
      ensures Room(capacity, interval, ts, rs + [r], j) ==
              Room(capacity, interval, ts, rs, j) - (if r.allowed then interval else 0)
    {
      RoomAfterAnswer(capacity, interval, ts, rs, r, j);
    }
  }

  lemma TightestAfterTick(capacity: pos, interval: pos, ts: seq<int>, now: int, rs: seq<Result>, level: int)
    requires ts != [] && |rs| == |ts|
    requires Tightest(capacity, interval, ts, rs, level)
    ensures Tightest(capacity, interval, ts + [now], rs,
                     Refill(capacity, interval, Bucket(level, ts[|ts| - 1]), now).level)
  {
    var found := Refill(capacity, interval, Bucket(level, ts[|ts| - 1]), now).level;
    var all := ts + [now];
    assert Room(capacity, interval, all, rs, |ts|) == capacity * interval by {
      assert all[|ts|..] == [now] && rs[|ts|..] == [];
    }
    forall j: nat | j < |ts|
      ensures Room(capacity, interval, all, rs, j) ==
              Room(capacity, interval, ts, rs, j) + Max(0, now - ts[|ts| - 1]) * capacity
    {
      RoomAfterTick(capacity, interval, ts, now, rs, j);
    }
    var w: nat :| w < |ts| && level == Room(capacity, interval, ts, rs, w);
    assert level <= capacity * interval by { LevelBelowFull(capacity, interval, ts, rs, level); }
    assert found == Room(capacity, interval, all, rs, w) || found == Room(capacity, interval, all, rs, |ts|);
  }

  lemma LevelBelowFull(capacity: pos, interval: pos, ts: seq<int>, rs: seq<Result>, level: int)
    requires ts != [] && |rs| == |ts|
    requires Tightest(capacity, interval, ts, rs, level)
    ensures level <= capacity * interval
  {
    var n := |ts| - 1;
    assert level <= Room(capacity, interval, ts, rs, n);
    assert Forward(ts[n..]) == 0;
    assert interval * Passed(rs[n..]) >= 0;
  }

  /** One more admission after `passed` of them fits in a full bucket plus what
      `elapsed` nanoseconds refill. */
  predicate Fits(capacity: pos, interval: pos, passed: nat, elapsed: int) {
    (passed + 1) * interval <= capacity * interval + capacity * elapsed
  }

  /** The last call of `ts` fits every envelope opened by an earlier call j: the
      admissions since j and this one fit in a full bucket plus what the clock's
      forward movement since j refills. */
  ghost predicate FitsEveryEnvelope(capacity: pos, interval: pos, ts: seq<int>, past: seq<Result>)
    requires |ts| == |past| + 1
  {
    forall j: nat :: j < |past| ==> Fits(capacity, interval, Passed(past[j..]), Forward(ts[j..]))
  }

  lemma TightestDecides(capacity: pos, interval: pos, ts: seq<int>, past: seq<Result>, level: int)
    requires |ts| == |past| + 1 && Tightest(capacity, interval, ts, past, level)
    ensures level >= interval <==> FitsEveryEnvelope(capacity, interval, ts, past)
  {
    var n := |past|;
    forall j: nat | j <= n
      ensures Room(capacity, interval, ts, past, j) >= interval <==>
              Fits(capacity, interval, Passed(past[j..]), Forward(ts[j..]))
    {
      assert (Passed(past[j..]) + 1) * interval == interval * Passed(past[j..]) + interval;
    }
    assert Room(capacity, interval, ts, past, n) >= interval by {
      assert Passed(past[n..]) == 0 && Forward(ts[n..]) == 0;
      MulMono(1, capacity, interval);
    }
    var w: nat :| w < |ts| && level == Room(capacity, interval, ts, past, w);
  }

  /** Under any clock, a request is admitted if and only if it fits every
      envelope. Two fields decide a property of the whole history. */
  lemma EnvelopeDecides(capacity: pos, interval: pos, ts: seq<int>, now: int)
    ensures var past := Play(Spec(capacity, interval), ts).results;
            Play(Spec(capacity, interval), ts + [now]).results[|ts|].allowed <==>
            FitsEveryEnvelope(capacity, interval, ts + [now], past)
  {
    PlaySnoc(Spec(capacity, interval), ts, now);
    LevelIsTightest(capacity, interval, ts + [now]);
    assert (ts + [now])[..|ts|] == ts;
    var past := Play(Spec(capacity, interval), ts).results;
    TightestDecides(capacity, interval, ts + [now], past, LevelFound(capacity, interval, ts + [now]));
  }

  /** On a clock that never goes back the envelopes are those of real time. */
  lemma EnvelopesInRealTime(capacity: pos, interval: pos, ts: seq<int>, past: seq<Result>)
    requires |ts| == |past| + 1 && NonDecreasing(ts)
    ensures FitsEveryEnvelope(capacity, interval, ts, past) <==>
            forall j: nat :: j < |past| ==> Fits(capacity, interval, Passed(past[j..]), ts[|past|] - ts[j])
  {
    forall j: nat | j < |past|
      ensures Forward(ts[j..]) == ts[|past|] - ts[j]
    {
      ForwardOnMonotoneClock(ts[j..]);
    }
  }

  /** Tokens stay between none and a full bucket, under any clock. */
  lemma {:induction false} LevelInBounds(capacity: pos, interval: pos, ts: seq<int>)
    requires ts != []
    ensures 0 <= Play(Spec(capacity, interval), ts).state.value.level <= capacity * interval
  {
    MulMono(1, capacity, interval);
    if |ts| > 1 {
      LevelInBounds(capacity, interval, ts[..|ts| - 1]);
      var b := Play(Spec(capacity, interval), ts[..|ts| - 1]).state.value;
      var now := ts[|ts| - 1];
      if now > b.lastSeen {
        MulMono(0, now - b.lastSeen, capacity);
      }
    }
  }

  /** Over any stretch of any run, under any clock, the admissions fit in one
      full bucket plus what the forward clock movement refills. */
  lemma BurstBound(capacity: pos, interval: pos, ts: seq<int>, j: nat, k: nat)
    requires j < k <= |ts|
    ensures var rs := Play(Spec(capacity, interval), ts).results;
            interval * Passed(rs[j..k]) <= capacity * interval + capacity * Forward(ts[j..k])
  {
    var part := ts[..k];
    PlayPrefix(Spec(capacity, interval), ts, k);
    LevelIsTightest(capacity, interval, part);
    TightestAfterAnswer(capacity, interval, part);
    LevelInBounds(capacity, interval, part);
    var t := Play(Spec(capacity, interval), part);
    assert t.state.value.level <= Room(capacity, interval, part, t.results, j);
    assert part[j..] == ts[j..k];
    assert t.results[j..] == Play(Spec(capacity, interval), ts).results[j..k];
  }

  // ---- Retry-After ----

  /** A call d nanoseconds after the last one, with nothing in between, is admitted. */
  predicate AdmitsAfter(capacity: pos, interval: pos, b: Bucket, d: nat) {
    Advance(capacity, interval, b, b.lastSeen + d).1.allowed
  }

  lemma AdmittedOnceRefilled(capacity: pos, interval: pos, b: Bucket, d: nat)
    requires b.level < interval
    ensures AdmitsAfter(capacity, interval, b, d) <==> interval - b.level <= d * capacity
  {
    MulMono(1, capacity, interval);
  }

  /** After a denial, waiting d with no other traffic succeeds exactly when d
      refills the missing level. The advertised wait is that time truncated to a
      nanosecond, so it suffices only if nothing was truncated; one nanosecond
      more always suffices, and anything shorter never does. */
  lemma RetryAfterIsTruncated(capacity: pos, interval: pos, b: Bucket, now: int)
    requires !Advance(capacity, interval, b, now).1.allowed
    ensures var (next, r) := Advance(capacity, interval, b, now);
            && next.lastSeen == now && r.retryAfter >= 0
            && (AdmitsAfter(capacity, interval, next, r.retryAfter) <==> (interval - next.level) % capacity == 0)
            && (forall d: nat :: d > r.retryAfter ==> AdmitsAfter(capacity, interval, next, d))
            && (forall d: nat :: d < r.retryAfter ==> !AdmitsAfter(capacity, interval, next, d))
  {
    var (next, r) := Advance(capacity, interval, b, now);
    var missing := interval - next.level;
    assert missing > 0 && r.retryAfter == missing / capacity;
    forall d: nat
      ensures AdmitsAfter(capacity, interval, next, d) <==> missing <= d * capacity
    {
      AdmittedOnceRefilled(capacity, interval, next, d);
    }
    hide AdmitsAfter;
    forall d: nat
      ensures d > r.retryAfter ==> missing <= d * capacity
      ensures d < r.retryAfter ==> d * capacity < missing
      ensures d == r.retryAfter ==> (missing <= d * capacity <==> missing % capacity == 0)
    {
      TruncatedWait(missing, capacity, d);
    }
  }

  lemma RetryAdvertised(capacity: pos, interval: pos, b: Bucket, now: int)
    requires !Advance(capacity, interval, b, now).1.allowed
    ensures var (next, r) := Advance(capacity, interval, b, now);
            next.level < interval && r.retryAfter == (interval - next.level) / capacity
  {
  }

  lemma TruncatedWait(missing: nat, capacity: pos, d: nat)
    ensures d > missing / capacity ==> missing <= d * capacity
    ensures d < missing / capacity ==> d * capacity < missing
    ensures d == missing / capacity ==> (missing <= d * capacity <==> missing % capacity == 0)
  {
    var retry := missing / capacity;
    assert missing == retry * capacity + missing % capacity;
    if d > retry {
      MulMono(retry + 1, d, capacity);
      assert (retry + 1) * capacity == retry * capacity + capacity;
    } else if d < retry {
      MulMonoStrict(d, retry, capacity);
    }
  }

  /** The truncation is observable: with three tokens per ten nanoseconds, a
      client that empties the bucket and obeys Retry-After is denied again. */
  lemma TruncatedRetryIsDenied()
    ensures var (next, r) := Advance(3, 10, Bucket(0, 0), 0);
            && Play(Spec(3, 10), [0, 0, 0]).state == Some(Bucket(0, 0))
            && !r.allowed && r.retryAfter == 3
            && !AdmitsAfter(3, 10, next, r.retryAfter)
  {
    var alg := Spec(3, 10);
    assert Play(alg, [0]).state == Some(Bucket(20, 0)) by {
      PlaySnoc(alg, [], 0);
    }
    assert Play(alg, [0, 0]).state == Some(Bucket(10, 0)) by {
      PlaySnoc(alg, [0], 0);
      assert [0] + [0] == [0, 0];
    }
    PlaySnoc(alg, [0, 0], 0);
    assert [0, 0] + [0] == [0, 0, 0];
  }

  // ---- When the advertised times are exact ----

  /** Every reading of the clock is a whole number of ticks. */
  ghost predicate Ticked(ts: seq<int>, tick: pos) {
    forall i :: 0 <= i < |ts| ==> ts[i] % tick == 0
  }

  /** Whatever divides a token and what one tick refills divides every level. */
  lemma {:induction false} LevelIsMultiple(capacity: pos, interval: pos, g: pos, tick: pos, ts: seq<int>)
    requires ts != [] && Ticked(ts, tick) && interval % g == 0 && tick * capacity % g == 0
    ensures Play(Spec(capacity, interval), ts).state.value.level % g == 0
    ensures Play(Spec(capacity, interval), ts).state.value.lastSeen == ts[|ts| - 1]
  {
    hide Play;
    var n := |ts| - 1;
    var past, now := ts[..n], ts[n];
    assert past + [now] == ts;
    PlaySnoc(Spec(capacity, interval), past, now);
    MultipleTimes(g, interval, capacity);
    if n == 0 {
      PlayNothing(capacity, interval);
      TimesIsMultiple(tick, 0);
      AdvanceStaysMultiple(capacity, interval, g, tick, Full(capacity, interval, now), now);
    } else {
      LevelIsMultiple(capacity, interval, g, tick, past);
      assert past[n - 1] == ts[n - 1];
      MultipleSum(tick, now, ts[n - 1]);
      AdvanceStaysMultiple(capacity, interval, g, tick, Play(Spec(capacity, interval), past).state.value, now);
    }
  }

  lemma AdvanceStaysMultiple(capacity: pos, interval: pos, g: pos, tick: pos, b: Bucket, now: int)
    requires interval % g == 0 && tick * capacity % g == 0
    requires b.level % g == 0 && (now - b.lastSeen) % tick == 0
    ensures Advance(capacity, interval, b, now).0.level % g == 0
    ensures Advance(capacity, interval, b, now).0.lastSeen == now
  {
    hide DurationFor;
    var elapsed := now - b.lastSeen;
    MultipleTimes(g, tick * capacity, elapsed / tick);
    assert elapsed / tick * (tick * capacity) == elapsed * capacity;
    MultipleSum(g, b.level, elapsed * capacity);
    MultipleTimes(g, interval, capacity);
    var full := Refill(capacity, interval, b, now).level;
    assert full % g == 0;
    MultipleSum(g, full, interval);
  }

  /** If a token accrues in whole nanoseconds, every level is whole nanoseconds. */
  lemma LevelIsWhole(capacity: pos, interval: pos, ts: seq<int>)
    requires ts != [] && interval % capacity == 0
    ensures Play(Spec(capacity, interval), ts).state.value.level % capacity == 0
  {
    hide Play;
    TimesIsMultiple(capacity, 1);
    LevelIsMultiple(capacity, interval, capacity, 1, ts);
  }

  lemma PlayNothing(capacity: pos, interval: pos)
    ensures Play(Spec(capacity, interval), []).state == None
  {
  }

  /** A call once enough has accrued, short of a full bucket, spends a token. */
  lemma SpendsAfter(capacity: pos, interval: pos, b: Bucket, d: nat)
    requires interval <= b.level + d * capacity <= capacity * interval
    ensures Advance(capacity, interval, b, b.lastSeen + d).0 ==
            Bucket(b.level + d * capacity - interval, b.lastSeen + d)
  {
  }

  /** A call before enough has accrued is denied and spends nothing. */
  lemma DeniedAfter(capacity: pos, interval: pos, b: Bucket, d: nat)
    requires b.level + d * capacity < interval
    ensures var (next, r) := Advance(capacity, interval, b, b.lastSeen + d);
            !r.allowed && next == Bucket(b.level + d * capacity, b.lastSeen + d)
  {
    MulMono(1, capacity, interval);
  }

  /** The last answer of a run, and the bucket it was given from. */
  lemma LastAnswer(capacity: pos, interval: pos, ts: seq<int>) returns (b: Bucket)
    requires ts != []
    ensures var t := Play(Spec(capacity, interval), ts);
            (t.state.value, t.results[|ts| - 1]) == Advance(capacity, interval, b, ts[|ts| - 1])
    ensures b.level <= capacity * interval
  {
    hide Advance;
    var n := |ts| - 1;
    if n == 0 {
      b := Full(capacity, interval, ts[0]);
    } else {
      b := Play(Spec(capacity, interval), ts[..n]).state.value;
      LevelInBounds(capacity, interval, ts[..n]);
    }
  }

  /** Calls at one instant drain a full bucket token by token. */
  lemma {:induction false} Drained(capacity: pos, interval: pos, n: nat)
    requires 0 < n <= capacity
    ensures Play(Spec(capacity, interval), seq(n, _ => 0)).state == Some(Bucket((capacity - n) * interval, 0))
  {
    var alg, past := Spec(capacity, interval), seq(n - 1, _ => 0);
    PlaySnoc(alg, past, 0);
    assert past + [0] == seq(n, _ => 0);
    MulMono(1, capacity - n + 1, interval);
    assert (capacity - n + 1) * interval == (capacity - n) * interval + interval;
    if n > 1 {
      Drained(capacity, interval, n - 1);
    }
  }

  /** The last answer of a run admits, or advertises a wait after which it does. */
  ghost predicate RetryIsHonored(capacity: pos, interval: pos, ts: seq<int>)
    requires ts != []
  {
    var t := Play(Spec(capacity, interval), ts);
    var r := t.results[|ts| - 1];
    r.allowed || (r.retryAfter >= 0 && AdmitsAfter(capacity, interval, t.state.value, r.retryAfter))
  }

  /** RetryAfter suffices after every denial of every run exactly if a token
      accrues in a whole number of nanoseconds. */
  lemma RetryIsHonoredIff(capacity: pos, interval: pos)
    ensures (forall ts :: ts != [] ==> RetryIsHonored(capacity, interval, ts)) <==> interval % capacity == 0
  {
    hide Advance, Play, AdmitsAfter;
    if interval % capacity == 0 {
      forall ts: seq<int> | ts != []
        ensures RetryIsHonored(capacity, interval, ts)
      {
        var b := LastAnswer(capacity, interval, ts);
        LevelIsWhole(capacity, interval, ts);
        MultipleSum(capacity, interval, Play(Spec(capacity, interval), ts).state.value.level);
        if !Advance(capacity, interval, b, ts[|ts| - 1]).1.allowed {
          RetryAfterIsTruncated(capacity, interval, b, ts[|ts| - 1]);
        }
      }
    } else {
      var drained := seq(capacity, _ => 0);
      Drained(capacity, interval, capacity);
      PlaySnoc(Spec(capacity, interval), drained, 0);
      EmptyDenies(capacity, interval);
      RetryAfterIsTruncated(capacity, interval, Bucket(0, 0), 0);
      assert !RetryIsHonored(capacity, interval, drained + [0]);
    }
  }

  lemma EmptyDenies(capacity: pos, interval: pos)
    ensures var (next, r) := Advance(capacity, interval, Bucket(0, 0), 0);
            next == Bucket(0, 0) && !r.allowed
  {
  }

  /** A call d nanoseconds after the last one, with nothing in between, finds the
      bucket as full as a fresh one. */
  predicate FullAfter(capacity: pos, interval: pos, b: Bucket, d: nat) {
    var now := b.lastSeen + d;
    Refill(capacity, interval, b, now) == Full(capacity, interval, now)
  }

  /** ResetAfter is the time to a full bucket, truncated to a nanosecond. */
  lemma ResetAfterIsTruncated(capacity: pos, interval: pos, b: Bucket, now: int)
    requires b.level <= capacity * interval
    ensures var (next, r) := Advance(capacity, interval, b, now);
            && r.resetAfter >= 0
            && (FullAfter(capacity, interval, next, r.resetAfter) <==> next.level % capacity == 0)
            && (forall d: nat :: d > r.resetAfter ==> FullAfter(capacity, interval, next, d))
            && (forall d: nat :: d < r.resetAfter ==> !FullAfter(capacity, interval, next, d))
  {
    ResetAdvertised(capacity, interval, b, now);
    hide Advance, FullAfter;
    FullFrom(capacity, interval, Advance(capacity, interval, b, now).0);
  }

  lemma ResetAdvertised(capacity: pos, interval: pos, b: Bucket, now: int)
    requires b.level <= capacity * interval
    ensures var (next, r) := Advance(capacity, interval, b, now);
            next.level <= capacity * interval && r.resetAfter == (capacity * interval - next.level) / capacity
  {
  }

  lemma FullFrom(capacity: pos, interval: pos, b: Bucket)
    requires b.level <= capacity * interval
    ensures var reset := (capacity * interval - b.level) / capacity;
            && reset >= 0
            && (FullAfter(capacity, interval, b, reset) <==> b.level % capacity == 0)
            && (forall d: nat :: d > reset ==> FullAfter(capacity, interval, b, d))
            && (forall d: nat :: d < reset ==> !FullAfter(capacity, interval, b, d))
  {
    hide FullAfter;
    var missing := capacity * interval - b.level;
    MissingIsWhole(capacity, interval, b.level);
    FloorDivLaw(missing, capacity, 0);
    forall d: nat
      ensures d > missing / capacity ==> FullAfter(capacity, interval, b, d)
      ensures d < missing / capacity ==> !FullAfter(capacity, interval, b, d)
      ensures d == missing / capacity ==> (FullAfter(capacity, interval, b, d) <==> missing % capacity == 0)
    {
      FullOnceRefilled(capacity, interval, b, d);
      TruncatedWait(missing, capacity, d);
    }
  }

  lemma FullOnceRefilled(capacity: pos, interval: pos, b: Bucket, d: nat)
    requires b.level <= capacity * interval
    ensures FullAfter(capacity, interval, b, d) <==> capacity * interval - b.level <= d * capacity
  {
  }

  lemma MissingIsWhole(capacity: pos, interval: pos, level: int)
    ensures (capacity * interval - level) % capacity == 0 <==> level % capacity == 0
  {
    TimesIsMultiple(capacity, interval);
    if level % capacity == 0 {
      MultipleSum(capacity, capacity * interval, level);
    } else if (capacity * interval - level) % capacity == 0 {
      MultipleSum(capacity, capacity * interval, capacity * interval - level);
    }
  }

  /** The last answer of a run advertises when a silent key's bucket is full. */
  ghost predicate ResetIsHonored(capacity: pos, interval: pos, ts: seq<int>)
    requires ts != []
  {
    var t := Play(Spec(capacity, interval), ts);
    var r := t.results[|ts| - 1];
    r.resetAfter >= 0 && forall d: nat :: FullAfter(capacity, interval, t.state.value, d) <==> r.resetAfter <= d
  }

  /** ResetAfter is exact in every run under the very condition RetryAfter is. */
  lemma ResetIsHonoredIff(capacity: pos, interval: pos)
    ensures (forall ts :: ts != [] ==> ResetIsHonored(capacity, interval, ts)) <==> interval % capacity == 0
  {
    hide Advance, Play, FullAfter;
    if interval % capacity == 0 {
      forall ts: seq<int> | ts != []
        ensures ResetIsHonored(capacity, interval, ts)
      {
        var b := LastAnswer(capacity, interval, ts);
        LevelIsWhole(capacity, interval, ts);
        ResetAfterIsTruncated(capacity, interval, b, ts[|ts| - 1]);
      }
    } else {
      var b := LastAnswer(capacity, interval, [0]);
      Drained(capacity, interval, 1);
      assert seq(1, _ => 0) == [0];
      ResetAfterIsTruncated(capacity, interval, b, 0);
      assert (capacity - 1) * interval == capacity * interval - interval;
      MissingIsWhole(capacity, interval, interval);
      assert !ResetIsHonored(capacity, interval, [0]);
    }
  }
}
