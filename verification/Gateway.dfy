/** The Retry-After header the gateway derives from a denial: whole seconds,
    rounded up, at least one. */
module Gateway {
  import opened Arith
  import opened Wrappers
  import opened Limiter
  import B = TokenBuckets
  import C = WindowCounters
  import L = WindowLogs
  import CS = CounterScript
  import LS = LogScript

  function SecondsCeil(d: int): int {
    if d <= 0 then 0 else CeilDiv(d, SECOND)
  }

  function RetryAfterSeconds(d: int): int {
    var s := SecondsCeil(d);
    if s < 1 then 1 else s
  }

  /** The header never advertises less than the wait, and less than a second more
      unless the wait itself is shorter than a second. */
  lemma HeaderCovers(d: int)
    ensures var header := RetryAfterSeconds(d) * SECOND;
            d <= header && SECOND <= header && (header < d + SECOND || d <= 0)
  {
    CeilDivLaw(d, SECOND, SecondsCeil(d));
    CeilDivLaw(d, SECOND, CeilDiv(d, SECOND));
    CeilDivLaw(d, SECOND, CeilDiv(d, SECOND) - 1);
  }

  /** A client of the log that waits the header's seconds is admitted. */
  lemma LogHeaderSuffices(limit: pos, window: pos, ts: seq<int>)
    requires ts != [] && NonDecreasing(ts)
    requires !Play(L.Spec(limit, window), ts).results[|ts| - 1].allowed
    ensures var t := Play(L.Spec(limit, window), ts);
            var header := RetryAfterSeconds(t.results[|ts| - 1].retryAfter);
            L.AdmitsAfter(limit, window, t.state.value, ts[|ts| - 1], header * SECOND)
  {
    L.RetryAfterIsLeast(limit, window, ts);
    HeaderCovers(Play(L.Spec(limit, window), ts).results[|ts| - 1].retryAfter);
  }

  /** A client of the counter that waits the header's seconds is admitted. */
  lemma CounterHeaderSuffices(limit: pos, window: pos, anchor: C.Anchor, ts: seq<int>)
    requires ts != [] && NonDecreasing(ts)
    requires !Play(C.Spec(limit, window, anchor), ts).results[|ts| - 1].allowed
    ensures var t := Play(C.Spec(limit, window, anchor), ts);
            var header := RetryAfterSeconds(t.results[|ts| - 1].retryAfter);
            C.AdmitsAfter(limit, window, t.state.value, ts[|ts| - 1], header * SECOND)
  {
    C.RetryAfterIsLeast(limit, window, anchor, ts);
    HeaderCovers(Play(C.Spec(limit, window, anchor), ts).results[|ts| - 1].retryAfter);
  }

  /** The same of the log script, whatever member id the next call carries. */
  lemma {:induction false} LogScriptHeaderSuffices(limit: pos, millis: pos, calls: seq<LS.Request>, id: int)
    requires calls != [] && NonDecreasing(LS.Times(calls)) && LS.DistinctIds(calls)
    requires !Play(LS.Spec(limit, millis).alg, calls).results[|calls| - 1].allowed
    ensures var t := Play(LS.Spec(limit, millis).alg, calls);
            var header := RetryAfterSeconds(t.results[|calls| - 1].retryAfter);
            LS.AdmitsAfter(limit, millis, t.state.value, calls[|calls| - 1].now, id, header * SECOND)
  {
    hide LS.AdmitsAfter;
    LS.ScriptRetryIsLeast(limit, millis, calls, id);
    HeaderCovers(Play(LS.Spec(limit, millis).alg, calls).results[|calls| - 1].retryAfter);
  }

  /** The same of the counter script. */
  lemma CounterScriptHeaderSuffices(limit: pos, millis: pos, ts: seq<int>)
    requires ts != [] && NonDecreasing(ts)
    requires !Play(CS.Spec(limit, millis).alg, ts).results[|ts| - 1].allowed
    ensures var t := Play(CS.Spec(limit, millis).alg, ts);
            var header := RetryAfterSeconds(t.results[|ts| - 1].retryAfter);
            CS.AdmitsAfter(limit, millis, t.state.value, ts[|ts| - 1], header * SECOND)
  {
    hide CS.AdmitsAfter;
    CS.ScriptRetrySuffices(limit, millis, ts);
    HeaderCovers(Play(CS.Spec(limit, millis).alg, ts).results[|ts| - 1].retryAfter);
  }

  /** A client of the bucket that waits the header's seconds is admitted unless
      the advertised wait was cut short by truncation and is already a positive
      whole number of seconds, which rounding up leaves as it is. */
  lemma BucketHeaderSuffices(capacity: pos, interval: pos, b: B.Bucket, now: int)
    requires !B.Advance(capacity, interval, b, now).1.allowed
    ensures var (next, r) := B.Advance(capacity, interval, b, now);
            var header := RetryAfterSeconds(r.retryAfter);
            B.AdmitsAfter(capacity, interval, next, header * SECOND) <==>
            r.retryAfter == 0 || r.retryAfter % SECOND != 0 || (interval - next.level) % capacity == 0
  {
    hide B.Advance;
    B.RetryAfterIsTruncated(capacity, interval, b, now);
    var (next, r) := B.Advance(capacity, interval, b, now);
    HeaderCovers(r.retryAfter);
    var header := RetryAfterSeconds(r.retryAfter) * SECOND;
    if r.retryAfter > 0 {
      WholeSeconds(r.retryAfter);
    }
  }

  lemma WholeSeconds(d: int)
    requires d > 0
    ensures RetryAfterSeconds(d) * SECOND == d <==> d % SECOND == 0
  {
    CeilDivLaw(d, SECOND, CeilDiv(d, SECOND));
    CeilDivLaw(d, SECOND, CeilDiv(d, SECOND) - 1);
  }

  /** Three tokens per 3.000000001 seconds: an emptied bucket advertises exactly
      one second, and a client that waits it is denied again. */
  lemma BucketHeaderCanFallShort()
    ensures var (next, r) := B.Advance(3, 3_000_000_001, B.Bucket(0, 0), 0);
            && Play(B.Spec(3, 3_000_000_001), [0, 0, 0]).state == Some(B.Bucket(0, 0))
            && !r.allowed
            && RetryAfterSeconds(r.retryAfter) == 1
            && !B.AdmitsAfter(3, 3_000_000_001, next, SECOND)
  {
    B.Drained(3, 3_000_000_001, 3);
    assert seq(3, _ => 0) == [0, 0, 0];
  }
}
