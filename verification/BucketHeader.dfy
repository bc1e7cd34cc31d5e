/** When the token bucket's whole-second header is long enough, on any clock that
    advances in whole ticks: in memory a tick is a nanosecond, in Redis a microsecond.
    Both run the same algorithm. */
module BucketHeader {
  import opened Arith
  import opened Wrappers
  import opened Limiter
  import opened Gateway
  import B = TokenBuckets
  import T = TokenBucketScript

  /** The last answer of a run admits, or its header's seconds are enough. */
  ghost predicate HeaderIsHonored(capacity: pos, interval: pos, ts: seq<int>)
    requires ts != []
  {
    var t := Play(B.Spec(capacity, interval), ts);
    var r := t.results[|ts| - 1];
    r.allowed || B.AdmitsAfter(capacity, interval, t.state.value, RetryAfterSeconds(r.retryAfter) * SECOND)
  }

  /** The header is long enough after every denial of every run on that clock. */
  ghost predicate AlwaysHonored(capacity: pos, interval: pos, tick: pos) {
    forall ts :: ts != [] && B.Ticked(ts, tick) ==> HeaderIsHonored(capacity, interval, ts)
  }

  /** A token accrues in at most a second, or what a token costs and what a tick
      refills have a common divisor of at least a nanosecond's refill. */
  predicate LongEnough(capacity: pos, interval: pos, tick: pos) {
    interval <= capacity * SECOND || Gcd(interval, tick * capacity) >= capacity
  }

  lemma HeaderIsHonoredIff(capacity: pos, interval: pos, tick: pos)
    requires SECOND % tick == 0
    ensures AlwaysHonored(capacity, interval, tick) <==> LongEnough(capacity, interval, tick)
  {
    hide LongEnough, HeaderIsHonored;
    if LongEnough(capacity, interval, tick) {
      forall ts: seq<int> | ts != [] && B.Ticked(ts, tick)
        ensures HeaderIsHonored(capacity, interval, ts)
      {
        HonoredIn(capacity, interval, tick, ts);
      }
    } else {
      var ts := FailsIn(capacity, interval, tick);
    }
  }

  /** On a nanosecond clock: exactly if a token accrues in a whole number of
      nanoseconds, or in at most a second. */
  lemma InMemoryHeaderIsHonoredIff(capacity: pos, interval: pos)
    ensures (forall ts :: ts != [] ==> HeaderIsHonored(capacity, interval, ts)) <==>
            interval % capacity == 0 || interval <= capacity * SECOND
  {
    hide HeaderIsHonored;
    HeaderIsHonoredIff(capacity, interval, 1);
    assert forall ts: seq<int> :: B.Ticked(ts, 1);
    WholeNanoseconds(capacity, interval);
  }

  lemma WholeNanoseconds(capacity: pos, interval: pos)
    ensures Gcd(interval, 1 * capacity) >= capacity <==> interval % capacity == 0
  {
    var g := Gcd(interval, capacity);
    GcdDivides(interval, capacity);
    assert g <= capacity by {
      if g > capacity {
        RemainderIs(capacity, g, 0, capacity);
      }
    }
    if interval % capacity == 0 {
      TimesIsMultiple(capacity, 1);
      DividesGcd(capacity, interval, capacity);
      if g < capacity {
        RemainderIs(g, capacity, 0, g);
      }
    }
  }

  /** The bucket the gateway runs: the script, on Redis's clock. */
  lemma ScriptHeaderIsHonoredIff(capacity: pos, interval: pos)
    ensures T.Spec(capacity, interval).alg == B.Spec(capacity, interval)
    ensures AlwaysHonored(capacity, interval, MICROSECOND) <==>
            interval <= capacity * SECOND || Gcd(interval, MICROSECOND * capacity) >= capacity
  {
    hide AlwaysHonored;
    HeaderIsHonoredIff(capacity, interval, MICROSECOND);
  }

  /** So any capacity up to a thousand over any whole number of microseconds is fine. */
  lemma ModestBucketsAreHonored(capacity: pos, interval: pos)
    requires capacity <= MICROSECOND && interval % MICROSECOND == 0
    ensures AlwaysHonored(capacity, interval, MICROSECOND)
  {
    hide AlwaysHonored, Gcd;
    var g := Gcd(interval, MICROSECOND * capacity);
    GcdDivides(interval, MICROSECOND * capacity);
    TimesIsMultiple(MICROSECOND, capacity);
    DividesGcd(MICROSECOND, interval, MICROSECOND * capacity);
    if g < MICROSECOND {
      RemainderIs(g, MICROSECOND, 0, g);
    }
    ScriptHeaderIsHonoredIff(capacity, interval);
  }

  // ---- When it is long enough ----

  lemma HonoredIn(capacity: pos, interval: pos, tick: pos, ts: seq<int>)
    requires ts != [] && B.Ticked(ts, tick) && SECOND % tick == 0 && LongEnough(capacity, interval, tick)
    ensures HeaderIsHonored(capacity, interval, ts)
  {
    hide B.Advance, B.AdmitsAfter, Play, RetryAfterSeconds, B.Ticked, LongEnough, Gcd;
    var now := ts[|ts| - 1];
    var b := B.LastAnswer(capacity, interval, ts);
    if !B.Advance(capacity, interval, b, now).1.allowed {
      BucketHeaderSuffices(capacity, interval, b, now);
      B.LevelInBounds(capacity, interval, ts);
      B.RetryAdvertised(capacity, interval, b, now);
      var level := B.Advance(capacity, interval, b, now).0.level;
      var g := Gcd(interval, tick * capacity);
      GcdDivides(interval, tick * capacity);
      B.LevelIsMultiple(capacity, interval, g, tick, ts);
      MultipleSum(g, interval, level);
      NeverJustShort(capacity, interval, tick, g, interval - level);
    }
  }

  /** A wait that reaches a whole number of seconds reaches it exactly. */
  lemma NeverJustShort(capacity: pos, interval: pos, tick: pos, g: pos, missing: int)
    requires 0 <= missing <= interval && missing % g == 0 && tick * capacity % g == 0 && SECOND % tick == 0
    requires g == Gcd(interval, tick * capacity) && LongEnough(capacity, interval, tick)
    ensures missing / capacity == 0 || missing / capacity % SECOND != 0 || missing % capacity == 0
  {
    hide Gcd;
    var wait, rest := missing / capacity, missing % capacity;
    FloorDivLaw(missing, capacity, 0);
    assert missing == wait * capacity + rest;
    if wait > 0 && wait % SECOND == 0 && rest > 0 {
      var seconds := wait / SECOND;
      assert wait == seconds * SECOND;
      MulMono(SECOND, wait, capacity);
      assert missing > SECOND * capacity;
      TicksIn(capacity, tick, seconds);
      MultipleTimes(g, tick * capacity, seconds * (SECOND / tick));
      MultipleSum(g, missing, wait * capacity);
      assert rest < g;
      RemainderIs(rest, g, 0, rest);
      assert false;
    }
  }

  /** Whole seconds refill whole ticks' worth. */
  lemma TicksIn(capacity: pos, tick: pos, seconds: int)
    requires SECOND % tick == 0
    ensures seconds * SECOND * capacity == seconds * (SECOND / tick) * (tick * capacity)
  {
    assert SECOND == SECOND / tick * tick;
    assert seconds * (SECOND / tick) * (tick * capacity) == seconds * (SECOND / tick * tick) * capacity;
  }

  // ---- When it is not ----

  /** Each admission takes one token off what is left over of a tick's refill. */
  lemma {:induction false} LeftAfter(capacity: pos, interval: pos, tick: pos, j: nat) returns (ts: seq<int>)
    requires tick * capacity <= interval && capacity > 1
    ensures ts != [] && B.Ticked(ts, tick)
    ensures Play(B.Spec(capacity, interval), ts).state ==
            Some(B.Bucket(-(j * interval) % (tick * capacity), ts[|ts| - 1]))
  {
    hide Play, B.Advance;
    if j == 0 {
      ts := seq(capacity, _ => 0);
      B.Drained(capacity, interval, capacity);
      TimesIsMultiple(tick, 0);
      RemainderIs(0, tick * capacity, 0, 0);
    } else {
      var past := LeftAfter(capacity, interval, tick, j - 1);
      var last := past[|past| - 1];
      var level := -((j - 1) * interval) % (tick * capacity);
      var ticks := NextAdmitted(capacity, interval, tick, level, last, j);
      ts := past + [last + ticks * tick];
      PlaySnoc(B.Spec(capacity, interval), past, last + ticks * tick);
      TimesIsMultiple(tick, ticks);
      MultipleSum(tick, last, ticks * tick);
    }
  }

  lemma NextAdmitted(capacity: pos, interval: pos, tick: pos, level: int, last: int, j: pos) returns (ticks: nat)
    requires tick * capacity <= interval && capacity > 1
    requires level == -((j - 1) * interval) % (tick * capacity)
    ensures B.Advance(capacity, interval, B.Bucket(level, last), last + ticks * tick).0 ==
            B.Bucket(-(j * interval) % (tick * capacity), last + ticks * tick)
  {
    var b: pos := tick * capacity;
    ticks := LeastTicks(interval, b, level);
    var next := level + ticks * b - interval;
    Borrow(interval, b, level, ticks, j);
    assert ticks * tick * capacity == ticks * b;
    MulMono(2, capacity, interval);
    MulMono(1, ticks, tick);
    B.SpendsAfter(capacity, interval, B.Bucket(level, last), ticks * tick);
  }

  lemma LeastTicks(interval: pos, b: pos, level: int) returns (ticks: nat)
    requires 0 <= level < b <= interval
    ensures ticks > 0 && interval <= level + ticks * b < interval + b
  {
    ticks := CeilDiv(interval - level, b);
    CeilDivLaw(interval - level, b, ticks);
    CeilDivLaw(interval - level, b, ticks - 1);
    CeilDivLaw(interval - level, b, 0);
    assert (ticks - 1) * b == ticks * b - b;
  }

  lemma Borrow(interval: pos, b: pos, level: int, ticks: nat, j: pos)
    requires level == -((j - 1) * interval) % b && interval <= level + ticks * b < interval + b
    ensures level + ticks * b - interval == -(j * interval) % b
  {
    var q := -((j - 1) * interval) / b;
    assert -((j - 1) * interval) == q * b + level;
    assert j * interval == (j - 1) * interval + interval;
    assert (q - ticks) * b == q * b - ticks * b;
    RemainderIs(-(j * interval), b, q - ticks, level + ticks * b - interval);
  }

  /** Otherwise some run asks when whole seconds and less than a nanosecond's refill
      are missing: the header then says the whole seconds, which are not enough. */
  lemma FailsIn(capacity: pos, interval: pos, tick: pos) returns (ts: seq<int>)
    requires SECOND % tick == 0 && !LongEnough(capacity, interval, tick)
    ensures ts != [] && B.Ticked(ts, tick) && !HeaderIsHonored(capacity, interval, ts)
  {
    hide Play, B.Advance, B.AdmitsAfter, RetryAfterSeconds, Gcd;
    var b: pos := tick * capacity;
    MulMono(1, tick, capacity);
    TickFitsSecond(tick);
    MulMono(tick, SECOND, capacity);
    GcdDivides(interval, b);
    var n, rest := JustOver(capacity, interval, tick);
    var past := LeftAfter(capacity, interval, tick, n - 1);
    var last := past[|past| - 1];
    var target := interval - SECOND * capacity - rest;
    var ticks := TicksTo(capacity, interval, tick, n, rest);
    ts := past + [last + ticks * tick];
    PlaySnoc(B.Spec(capacity, interval), past, last + ticks * tick);
    TimesIsMultiple(tick, ticks);
    MultipleSum(tick, last, ticks * tick);
    var before := B.Bucket(-((n - 1) * interval) % b, last);
    assert ticks * tick * capacity == ticks * b;
    B.DeniedAfter(capacity, interval, before, ticks * tick);
    JustShort(capacity, rest);
    B.RetryAdvertised(capacity, interval, before, last + ticks * tick);
    BucketHeaderSuffices(capacity, interval, before, last + ticks * tick);
  }

  lemma TickFitsSecond(tick: pos)
    requires SECOND % tick == 0
    ensures tick <= SECOND
  {
    if tick > SECOND {
      RemainderIs(SECOND, tick, 0, SECOND);
    }
  }

  /** Some number of tokens costs a fraction of a nanosecond over whole ticks. */
  lemma JustOver(capacity: pos, interval: pos, tick: pos) returns (n: pos, rest: pos)
    requires SECOND % tick == 0 && !LongEnough(capacity, interval, tick)
    ensures capacity > 1 && rest < capacity && n * interval % (tick * capacity) == rest
    ensures SECOND * capacity + rest <= interval
  {
    hide Gcd;
    var b: pos := tick * capacity;
    var over := interval - SECOND * capacity;
    MulMono(1, tick, capacity);
    GcdDivides(interval, b);
    if over < capacity {
      n, rest := 1, over;
      TicksIn(capacity, tick, 1);
      RemainderIs(interval, b, SECOND / tick, over);
    } else {
      n := LeastRemainder(interval, b);
      rest := Gcd(interval, b);
      if n == 0 {
        RemainderIs(0, b, 0, 0);
      }
    }
  }

  lemma TicksTo(capacity: pos, interval: pos, tick: pos, n: pos, rest: pos) returns (ticks: nat)
    requires SECOND % tick == 0 && n * interval % (tick * capacity) == rest
    requires SECOND * capacity + rest <= interval
    ensures -((n - 1) * interval) % (tick * capacity) + ticks * (tick * capacity) ==
            interval - SECOND * capacity - rest
  {
    var b: pos := tick * capacity;
    var level := -((n - 1) * interval) % b;
    var q, q' := n * interval / b, -((n - 1) * interval) / b;
    assert n * interval == q * b + rest;
    assert -((n - 1) * interval) == q' * b + level;
    assert n * interval == (n - 1) * interval + interval;
    TicksIn(capacity, tick, 1);
    var k := q + q' - SECOND / tick;
    assert k * b == q * b + q' * b - SECOND / tick * b;
    assert level + k * b == interval - SECOND * capacity - rest;
    if k < 0 {
      MulMono(k, -1, b);
    }
    ticks := k;
  }

  lemma JustShort(capacity: pos, rest: pos)
    requires rest < capacity
    ensures (SECOND * capacity + rest) / capacity == SECOND && (SECOND * capacity + rest) % capacity == rest
  {
    RemainderIs(SECOND * capacity + rest, capacity, SECOND, rest);
  }
}
