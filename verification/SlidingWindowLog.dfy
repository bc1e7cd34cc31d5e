/** The sliding window log: one timestamp per admitted request, pruned to the
    trailing window on every call. */
module WindowLogs {
  import opened Arith
  import opened Wrappers
  import opened Limiter
  import opened Counting

  /** The timestamps after the cutoff, in order. */
  function Keep(h: seq<int>, cutoff: int): (kept: seq<int>)
    ensures |kept| <= |h|
  {
    if h == [] then []
    else
      var n := |h| - 1;
      Keep(h[..n], cutoff) + (if h[n] > cutoff then [h[n]] else [])
  }

  function Oldest(ts: seq<int>): int
    requires ts != []
  {
    if |ts| == 1 then ts[0] else Min(Oldest(ts[..|ts| - 1]), ts[|ts| - 1])
  }

  function Newest(ts: seq<int>): int
    requires ts != []
  {
    if |ts| == 1 then ts[0] else Max(Newest(ts[..|ts| - 1]), ts[|ts| - 1])
  }

  lemma {:induction false} OldestIsLeast(ts: seq<int>)
    requires ts != []
    ensures exists i :: 0 <= i < |ts| && ts[i] == Oldest(ts)
    ensures forall i :: 0 <= i < |ts| ==> Oldest(ts) <= ts[i]
  {
    if |ts| == 1 {
      assert ts[0] == Oldest(ts);
    } else {
      OldestIsLeast(ts[..|ts| - 1]);
      var i :| 0 <= i < |ts| - 1 && ts[..|ts| - 1][i] == Oldest(ts[..|ts| - 1]);
      assert ts[i] == Oldest(ts) || ts[|ts| - 1] == Oldest(ts);
    }
  }

  lemma {:induction false} NewestIsGreatest(ts: seq<int>)
    requires ts != []
    ensures exists i :: 0 <= i < |ts| && ts[i] == Newest(ts)
    ensures forall i :: 0 <= i < |ts| ==> ts[i] <= Newest(ts)
  {
    if |ts| == 1 {
      assert ts[0] == Newest(ts);
    } else {
      NewestIsGreatest(ts[..|ts| - 1]);
      var i :| 0 <= i < |ts| - 1 && ts[..|ts| - 1][i] == Newest(ts[..|ts| - 1]);
      assert ts[i] == Newest(ts) || ts[|ts| - 1] == Newest(ts);
    }
  }

  /** Bounds a reported duration to [0, window]. */
  function Clamp(window: pos, d: int): int {
    if d < 0 then 0 else if d > window then window else d
  }

  /** What is answered once only the trailing window is left. */
  function Decide(limit: pos, window: pos, kept: seq<int>, now: int): (seq<int>, Result) {
    if |kept| < limit then
      var entries := kept + [now];
      (entries, Result(true, limit, limit - |entries|, Clamp(window, Newest(entries) + window - now), 0))
    else
      (kept, Result(false, limit, 0, Clamp(window, Newest(kept) + window - now),
                    Clamp(window, Oldest(kept) + window - now)))
  }

  function Advance(limit: pos, window: pos, log: seq<int>, now: int): (seq<int>, Result) {
    Decide(limit, window, Keep(log, now - window), now)
  }

  function Spec(limit: pos, window: pos): Algorithm<seq<int>, int> {
    Algorithm((now: int) => [], (log: seq<int>, now: int) => Advance(limit, window, log, now))
  }

  // ---- The limiter itself ----

  /** A slice: the first `len` elements of a backing array. */
  datatype Slice = Slice(data: array<int>, len: nat)

  class SlidingWindowLog {
    const limit: pos
    const window: pos
    var logs: map<string, Slice>

    constructor (limit: pos, window: pos)
      ensures Valid() && logs == map[]
      ensures this.limit == limit && this.window == window
    {
      this.limit, this.window := limit, window;
      logs := map[];
    }

    static method New(limit: int, window: int) returns (s: Option<SlidingWindowLog>)
      ensures s.None? <==> limit <= 0 || window <= 0
      ensures s.Some? ==> fresh(s.value) && s.value.Valid() && s.value.logs == map[]
      ensures s.Some? ==> s.value.limit == limit && s.value.window == window
    {
      if limit <= 0 || window <= 0 {
        return None;
      }
      var made := new SlidingWindowLog(limit, window);
      return Some(made);
    }

    /** Slices fit their arrays, and no two keys share one. */
    ghost predicate Valid()
      reads this
    {
      && (forall k :: k in logs ==> logs[k].len <= logs[k].data.Length)
      && (forall k, k' :: k in logs && k' in logs && k != k' ==> logs[k].data != logs[k'].data)
    }

    /** The timestamps held for a key, if it has been seen. */
    function LogOf(key: string): Option<seq<int>>
      requires Valid()
      reads this, if key in logs then {logs[key].data} else {}
    {
      if key in logs then Some(logs[key].data[..logs[key].len]) else None
    }

    /** Records a request if fewer than `limit` fall in the trailing window. */
    method Allow(key: string, now: int) returns (res: Result)
      requires Valid()
      modifies `logs, if key in logs then {logs[key].data} else {}
      ensures Valid() && key in logs
      ensures (LogOf(key).value, res) == Call(Spec(limit, window), old(LogOf(key)), now)
      ensures forall k :: k != key ==> LogOf(k) == old(LogOf(k))
    {
      hide Decide, Keep;
      var entries: Slice;
      if key in logs {
        entries := logs[key];
      } else {
        var empty := new int[0];
        entries := Slice(empty, 0);
      }
      entries, res := Charge(entries, now);
      logs := logs[key := entries];
    }

    method Charge(s: Slice, now: int) returns (entries: Slice, res: Result)
      requires s.len <= s.data.Length
      modifies s.data
      ensures entries.len <= entries.data.Length && (entries.data == s.data || fresh(entries.data))
      ensures (entries.data[..entries.len], res) == Advance(limit, window, old(s.data[..s.len]), now)
    {
      hide Keep, Oldest, Newest, Clamp;
      var kept := Prune(s.data, s.len, now - window);
      entries := Slice(s.data, kept);
      var allowed, remaining, retryAfter := false, 0, 0;
      if entries.len < limit {
        entries := Append(entries, now);
        allowed := true;
        remaining := limit - entries.len;
      } else {
        var first := FindOldest(entries.data, entries.len);
        retryAfter := Clamp(window, first + window - now);
      }
      var resetAfter := 0;
      if entries.len > 0 {
        var last := FindNewest(entries.data, entries.len);
        resetAfter := Clamp(window, last + window - now);
      }
      res := Result(allowed, limit, remaining, resetAfter, retryAfter);
    }

    /** Moves the timestamps after the cutoff to the front of the array they are
        already in. */
    static method Prune(data: array<int>, len: nat, cutoff: int) returns (kept: nat)
      requires len <= data.Length
      modifies data
      ensures kept <= len && data[..kept] == Keep(old(data[..len]), cutoff)
    {
      ghost var was := data[..len];
      kept := 0;
      for i := 0 to len
        invariant kept <= i
        invariant data[..kept] == Keep(was[..i], cutoff)
        invariant forall k :: i <= k < len ==> data[k] == was[k]
      {
        assert was[..i + 1][..i] == was[..i];
        if data[i] > cutoff {
          data[kept] := data[i];
          kept := kept + 1;
        }
      }
      assert was[..len] == was;
    }

    /** Appends in place while the array has room, otherwise moves to a larger one. */
    static method Append(s: Slice, t: int) returns (r: Slice)
      requires s.len <= s.data.Length
      modifies s.data
      ensures r.len == s.len + 1 <= r.data.Length
      ensures r.data[..r.len] == old(s.data[..s.len]) + [t]
      ensures r.data == s.data || fresh(r.data)
    {
      var data := s.data;
      if s.len == s.data.Length {
        data := new int[2 * s.len + 1];
        for i := 0 to s.len
          invariant forall k :: 0 <= k < i ==> data[k] == s.data[k]
          invariant s.data[..] == old(s.data[..])
        {
          data[i] := s.data[i];
        }
      }
      data[s.len] := t;
      r := Slice(data, s.len + 1);
    }

    static method FindOldest(data: array<int>, len: nat) returns (m: int)
      requires 0 < len <= data.Length
      ensures m == Oldest(data[..len])
    {
      m := data[0];
      for i := 1 to len
        invariant m == Oldest(data[..i])
      {
        assert data[..i + 1][..i] == data[..i];
        if data[i] < m {
          m := data[i];
        }
      }
    }

    static method FindNewest(data: array<int>, len: nat) returns (m: int)
      requires 0 < len <= data.Length
      ensures m == Newest(data[..len])
    {
      m := data[0];
      for i := 1 to len
        invariant m == Newest(data[..i])
      {
        assert data[..i + 1][..i] == data[..i];
        if data[i] > m {
          m := data[i];
        }
      }
    }
  }

  // ---- Pruning forgets nothing that matters ----

  lemma KeepSnoc(h: seq<int>, t: int, cutoff: int)
    ensures Keep(h + [t], cutoff) == Keep(h, cutoff) + (if t > cutoff then [t] else [])
  {
    assert (h + [t])[..|h|] == h;
  }

  lemma {:induction false} KeepMembers(h: seq<int>, cutoff: int)
    ensures forall i :: 0 <= i < |Keep(h, cutoff)| ==> Keep(h, cutoff)[i] > cutoff
  {
    if h != [] {
      KeepMembers(h[..|h| - 1], cutoff);
    }
  }

  lemma {:induction false} KeepUpTo(h: seq<int>, cutoff: int, t: int)
    requires UpTo(h, t)
    ensures UpTo(Keep(h, cutoff), t)
  {
    if h != [] {
      KeepUpTo(h[..|h| - 1], cutoff, t);
    }
  }

  /** Pruning at successive cutoffs is pruning the full history at the last one. */
  lemma {:induction false} KeepTwice(h: seq<int>, c1: int, c2: int)
    requires c1 <= c2
    ensures Keep(Keep(h, c1), c2) == Keep(h, c2)
  {
    if h != [] {
      var n := |h| - 1;
      KeepTwice(h[..n], c1, c2);
      if h[n] > c1 {
        KeepSnoc(Keep(h[..n], c1), h[n], c2);
        assert Keep(h, c1) == Keep(h[..n], c1) + [h[n]];
      } else {
        assert Keep(h, c1) == Keep(h[..n], c1);
      }
    }
  }

  lemma {:induction false} KeepCounts(h: seq<int>, cutoff: int, t: int)
    requires UpTo(h, t)
    ensures |Keep(h, cutoff)| == Count(h, cutoff + 1, t + 1)
  {
    if h != [] {
      KeepCounts(h[..|h| - 1], cutoff, t);
    }
  }

  lemma {:induction false} KeepAll(h: seq<int>, cutoff: int)
    requires forall i :: 0 <= i < |h| ==> h[i] > cutoff
    ensures Keep(h, cutoff) == h
  {
    if h != [] {
      KeepAll(h[..|h| - 1], cutoff);
    }
  }

  /** Something is dropped exactly when the oldest entry is. */
  lemma {:induction false} KeepDrops(h: seq<int>, cutoff: int)
    requires h != []
    ensures |Keep(h, cutoff)| < |h| <==> Oldest(h) <= cutoff
  {
    var n := |h| - 1;
    if n > 0 {
      KeepDrops(h[..n], cutoff);
    }
  }

  // ---- The log decides on the full history ----

  ghost predicate WindowHolds(limit: pos, window: pos, h: seq<int>, lo: int) {
    Count(h, lo, lo + window) <= limit
  }

  /** The log is the history's trailing window, and no half-open interval one
      window long holds more than the limit. */
  ghost predicate Exact(limit: pos, window: pos, log: seq<int>, h: seq<int>, last: int) {
    && log == Keep(h, last - window)
    && |log| <= limit
    && UpTo(h, last)
    && (forall lo :: WindowHolds(limit, window, h, lo))
  }

  /** A request is admitted exactly when fewer than `limit` admissions of the
      whole history lie in (now - window, now]. */
  lemma DecidesOnHistory(limit: pos, window: pos, log: seq<int>, h: seq<int>, last: int, now: int)
    requires Exact(limit, window, log, h, last) && last <= now
    ensures Keep(log, now - window) == Keep(h, now - window)
    ensures |Keep(log, now - window)| == Count(h, now - window + 1, now + 1)
    ensures Advance(limit, window, log, now).1.allowed <==> Count(h, now - window + 1, now + 1) < limit
  {
    KeepTwice(h, last - window, now - window);
    KeepCounts(h, now - window, now);
  }

  lemma AdvanceIsExact(limit: pos, window: pos, log: seq<int>, h: seq<int>, last: int, now: int)
    requires Exact(limit, window, log, h, last) && last <= now
    ensures var (next, r) := Advance(limit, window, log, now);
            Exact(limit, window, next, Extend(h, now, r), now)
  {
    DecidesOnHistory(limit, window, log, h, last, now);
    var (next, r) := Advance(limit, window, log, now);
    if r.allowed {
      KeepSnoc(h, now, now - window);
      forall lo
        ensures WindowHolds(limit, window, h + [now], lo)
      {
        assert WindowHolds(limit, window, h, lo);
        CountSnoc(h, now, lo, lo + window);
        if lo <= now < lo + window {
          CountBeyond(h, last, lo, lo + window, now + 1);
          CountMono(h, lo, now + 1, now - window + 1, now + 1);
        }
      }
    }
  }

  lemma ExactIsPreserved(limit: pos, window: pos)
    ensures Preserves(Spec(limit, window), (log, h, last) => Exact(limit, window, log, h, last))
  {
    var alg := Spec(limit, window);
    var inv := (log, h, last) => Exact(limit, window, log, h, last);
    forall log: seq<int>, h: seq<int>, last: int, now: int | inv(log, h, last) && last <= now
      ensures HoldsAfter(alg, inv, log, h, now)
    {
      AdvanceIsExact(limit, window, log, h, last, now);
    }
  }

  function History(limit: pos, window: pos, ts: seq<int>): seq<int> {
    Admissions(ts, Play(Spec(limit, window), ts).results)
  }

  /** Every answer of a run is the one the whole history before it calls for. */
  lemma EveryCallIsExact(limit: pos, window: pos, ts: seq<int>, now: int)
    requires NonDecreasing(ts + [now])
    ensures Play(Spec(limit, window), ts + [now]).results[|ts|].allowed <==>
            Count(History(limit, window, ts), now - window + 1, now + 1) < limit
  {
    PlaySnoc(Spec(limit, window), ts, now);
    if ts != [] {
      var all := ts + [now];
      assert ts == all[..|ts|] && all[|ts| - 1] <= all[|ts|];
      LogIsExact(limit, window, ts);
      DecidesOnHistory(limit, window, Play(Spec(limit, window), ts).state.value, History(limit, window, ts),
                       ts[|ts| - 1], now);
    }
  }

  /** After any run the log holds exactly the admissions of the trailing window,
      never more than the limit; and at no time can any half-open interval one
      window long have held more than the limit. */
  lemma LogIsExact(limit: pos, window: pos, ts: seq<int>)
    requires ts != [] && NonDecreasing(ts)
    ensures Exact(limit, window, Play(Spec(limit, window), ts).state.value, History(limit, window, ts), ts[|ts| - 1])
  {
    ExactIsPreserved(limit, window);
    UnseenIsExact(limit, window, ts[0]);
    var _, _, _ := LastCall(Spec(limit, window), (log, h, last) => Exact(limit, window, log, h, last), ts);
  }

  lemma UnseenIsExact(limit: pos, window: pos, now: int)
    ensures Exact(limit, window, [], [], now)
  {
  }

  // ---- Retry-After ----

  /** A call d after the last one at `now`, with nothing in between, is admitted. */
  predicate AdmitsAfter(limit: pos, window: pos, log: seq<int>, now: int, d: nat) {
    Advance(limit, window, log, now + d).1.allowed
  }

  ghost predicate RetryIsLeast(limit: pos, window: pos, log: seq<int>, now: int, retry: int) {
    && 0 < retry <= window
    && forall d: nat :: AdmitsAfter(limit, window, log, now, d) <==> retry <= d
  }

  /** After a denial anywhere in a run, silence for d is rewarded exactly when d
      is at least RetryAfter. */
  lemma RetryAfterIsLeast(limit: pos, window: pos, ts: seq<int>)
    requires ts != [] && NonDecreasing(ts)
    requires !Play(Spec(limit, window), ts).results[|ts| - 1].allowed
    ensures var t := Play(Spec(limit, window), ts);
            RetryIsLeast(limit, window, t.state.value, ts[|ts| - 1], t.results[|ts| - 1].retryAfter)
  {
    ExactIsPreserved(limit, window);
    UnseenIsExact(limit, window, ts[0]);
    var log, h, last := LastCall(Spec(limit, window), (log, h, last) => Exact(limit, window, log, h, last), ts);
    DeniedRetry(limit, window, log, h, last, ts[|ts| - 1]);
  }

  lemma DeniedRetry(limit: pos, window: pos, log: seq<int>, h: seq<int>, last: int, now: int)
    requires Exact(limit, window, log, h, last) && last <= now
    requires !Advance(limit, window, log, now).1.allowed
    ensures var (next, r) := Advance(limit, window, log, now);
            && r.retryAfter == Oldest(next) + window - now
            && RetryIsLeast(limit, window, next, now, r.retryAfter)
  {
    AdvanceIsExact(limit, window, log, h, last, now);
    DecidesOnHistory(limit, window, log, h, last, now);
    var (next, r) := Advance(limit, window, log, now);
    OldestInWindow(limit, window, next, h, now);
    FullLogRetry(limit, window, next, now);
  }

  lemma FullLogRetry(limit: pos, window: pos, log: seq<int>, now: int)
    requires |log| == limit && now - window < Oldest(log) <= now
    ensures RetryIsLeast(limit, window, log, now, Oldest(log) + window - now)
  {
    hide Advance, Oldest;
    forall d: nat
      ensures AdmitsAfter(limit, window, log, now, d) <==> Oldest(log) + window - now <= d
    {
      FullLogAdmits(limit, window, log, now + d);
    }
  }

  lemma OldestInWindow(limit: pos, window: pos, log: seq<int>, h: seq<int>, now: int)
    requires log != [] && log == Keep(h, now - window) && UpTo(h, now)
    ensures now - window < Oldest(log) <= now
  {
    KeepMembers(h, now - window);
    KeepUpTo(h, now - window, now);
    OldestIsLeast(log);
  }

  lemma FullLogAdmits(limit: pos, window: pos, log: seq<int>, now: int)
    requires |log| == limit
    ensures Advance(limit, window, log, now).1.allowed <==> Oldest(log) <= now - window
  {
    hide Oldest, Newest, Keep;
    KeepDrops(log, now - window);
  }

  // ---- Reset ----

  /** A call d after the last one at `now`, with nothing in between, finds nothing left. */
  predicate EmptyAfter(window: pos, log: seq<int>, now: int, d: nat) {
    Keep(log, now + d - window) == []
  }

  /** ResetAfter is exactly how long until a silent key is at full capacity. */
  lemma ResetAfterIsLeast(limit: pos, window: pos, ts: seq<int>)
    requires ts != [] && NonDecreasing(ts)
    ensures var t, now := Play(Spec(limit, window), ts), ts[|ts| - 1];
            var reset := t.results[|ts| - 1].resetAfter;
            0 < reset <= window && forall d: nat :: EmptyAfter(window, t.state.value, now, d) <==> reset <= d
  {
    hide Advance, EmptyAfter;
    ExactIsPreserved(limit, window);
    UnseenIsExact(limit, window, ts[0]);
    var log, h, last := LastCall(Spec(limit, window), (log, h, last) => Exact(limit, window, log, h, last), ts);
    ResetIsNewest(limit, window, log, h, last, ts[|ts| - 1]);
  }

  lemma ResetIsNewest(limit: pos, window: pos, log: seq<int>, h: seq<int>, last: int, now: int)
    requires Exact(limit, window, log, h, last) && last <= now
    ensures var (next, r) := Advance(limit, window, log, now);
            0 < r.resetAfter <= window && forall d: nat :: EmptyAfter(window, next, now, d) <==> r.resetAfter <= d
  {
    hide Keep, Oldest, Newest, Exact;
    AdvanceIsExact(limit, window, log, h, last, now);
    var (next, r) := Advance(limit, window, log, now);
    assert next != [] && r.resetAfter == Clamp(window, Newest(next) + window - now);
    NewestInWindow(limit, window, next, Extend(h, now, r), now);
    forall d: nat
      ensures EmptyAfter(window, next, now, d) <==> Newest(next) <= now + d - window
    {
      KeepsNone(next, now + d - window);
    }
  }

  lemma NewestInWindow(limit: pos, window: pos, log: seq<int>, h: seq<int>, now: int)
    requires log != [] && Exact(limit, window, log, h, now)
    ensures now - window < Newest(log) <= now
  {
    KeepMembers(h, now - window);
    KeepUpTo(h, now - window, now);
    NewestIsGreatest(log);
  }

  /** Nothing is kept exactly when the newest entry is dropped. */
  lemma {:induction false} KeepsNone(h: seq<int>, cutoff: int)
    requires h != []
    ensures Keep(h, cutoff) == [] <==> Newest(h) <= cutoff
  {
    var n := |h| - 1;
    if n > 0 {
      KeepsNone(h[..n], cutoff);
    }
  }

  // ---- Every answer ----

  /** Under any clock, every answer is as the interface promises, no duration exceeds
      the window, and no log outgrows the limit. */
  lemma AnswerIsWellFormed(limit: pos, window: pos, log: seq<int>, now: int)
    requires |log| <= limit
    ensures var (next, r) := Advance(limit, window, log, now);
            && WellFormed(r, limit) && r.resetAfter <= window && r.retryAfter <= window
            && |next| <= limit
  {
    hide Keep, Oldest, Newest;
  }

  /** A reported duration is the possible one nearest to what was computed, and that
      itself when it is possible. */
  lemma ClampIsNearest(window: pos, d: int, x: int)
    requires 0 <= x <= window
    ensures var c := Clamp(window, d);
            0 <= c <= window && (if d <= c then c - d <= Max(x - d, d - x) else d - c <= Max(x - d, d - x))
  {
  }

  // ---- Polling ----

  lemma SilentDenials(limit: pos, window: pos)
    ensures DenialsAreSilent(Spec(limit, window), (log: seq<int>, last: int) => true)
  {
    hide Advance;
    var alg, sane := Spec(limit, window), (log: seq<int>, last: int) => true;
    forall now
      ensures alg.advance(alg.unseen(now), now).1.allowed
    {
      FreshAdmits(limit, window, now);
    }
    forall log: seq<int>, last: int, now: int | sane(log, last) && last <= now
      ensures SilentAt(alg, sane, log, now)
    {
      forall later | now <= later && !Advance(limit, window, log, now).1.allowed
        ensures Advance(limit, window, Advance(limit, window, log, now).0, later) == Advance(limit, window, log, later)
      {
        PrunedAnswersAlike(limit, window, log, now, later);
      }
    }
  }

  lemma FreshAdmits(limit: pos, window: pos, now: int)
    ensures Advance(limit, window, [], now).1.allowed
  {
  }

  lemma PrunedAnswersAlike(limit: pos, window: pos, log: seq<int>, now: int, later: int)
    requires now <= later && !Advance(limit, window, log, now).1.allowed
    ensures Advance(limit, window, Advance(limit, window, log, now).0, later) == Advance(limit, window, log, later)
  {
    hide Keep, Oldest, Newest, Clamp;
    KeepTwice(log, now - window, later - window);
  }

  /** Polling is harmless: leaving denied calls out of a run changes no other answer. */
  lemma PollingIsHarmless(limit: pos, window: pos, ts: seq<int>, keep: seq<bool>)
    requires NonDecreasing(ts) && DropsDenials(Play(Spec(limit, window), ts).results, keep)
    ensures Play(Spec(limit, window), Kept(ts, keep)).results ==
            Kept(Play(Spec(limit, window), ts).results, keep)
  {
    SilentDenials(limit, window);
    var _ := DenialsLeaveNoTrace(Spec(limit, window), (log: seq<int>, last: int) => true, ts, keep);
  }

  // ---- Remaining ----

  lemma {:induction false} AgainFrom(limit: pos, window: pos, log: seq<int>, now: int, n: nat)
    requires forall i :: 0 <= i < |log| ==> log[i] > now - window
    ensures Again(Spec(limit, window), log, now, n).allowed <==> |log| + n < limit
    decreases n
  {
    hide Keep, Oldest, Newest, Clamp;
    KeepAll(log, now - window);
    if n > 0 {
      var next := if |log| < limit then log + [now] else log;
      assert Advance(limit, window, log, now).0 == next;
      AgainFrom(limit, window, next, now, n - 1);
    }
  }

  /** Remaining is exactly the number of further requests that one instant admits. */
  lemma RemainingExact(limit: pos, window: pos)
    ensures RemainingIsExact(Spec(limit, window))
  {
    var alg := Spec(limit, window);
    forall log: seq<int>, now: int
      ensures RemainingIsExactAt(alg, log, now)
    {
      var (next, r) := alg.advance(log, now);
      KeepMembers(log, now - window);
      forall n: nat
        ensures Again(alg, next, now, n).allowed <==> n < r.remaining
      {
        AgainFrom(limit, window, next, now, n);
      }
    }
  }
}
