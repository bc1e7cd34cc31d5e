/** What every rate-limiting algorithm has in common: the answer to one call,
    runs of calls on one key, and runs that interleave many keys. */
module Limiter {
  import opened Wrappers

  type pos = n: int | n > 0 witness 1

  /** In nanoseconds, as every time and duration here. */
  const MICROSECOND := 1_000
  const MILLISECOND := 1_000_000
  const SECOND := 1_000_000_000

  /** The answer to one Allow call. */
  datatype Result = Result(
    allowed: bool,
    limit: int,
    remaining: int,
    resetAfter: int,
    retryAfter: int)

  /** What the interface promises of every answer. */
  predicate WellFormed(r: Result, limit: int) {
    && r.limit == limit && 0 <= r.remaining < limit
    && (if r.allowed then r.retryAfter == 0 else r.remaining == 0)
    && r.resetAfter >= 0 && r.retryAfter >= 0
  }

  /** A limiter as seen from one key: the state a fresh key is given, and what
      one call does to a key that has state. `In` carries the clock reading. */
  datatype Algorithm<!S, !In> = Algorithm(
    unseen: In -> S,
    advance: (S, In) -> (S, Result))

  /** One call on a key that may never have been seen. */
  function Call<S, In>(alg: Algorithm<S, In>, s: Option<S>, call: In): (S, Result) {
    match s
    case None => alg.advance(alg.unseen(call), call)
    case Some(state) => alg.advance(state, call)
  }

  // ---- Runs on one key ----

  datatype Trace<+S> = Trace(state: Option<S>, results: seq<Result>)

  function Play<S, In>(alg: Algorithm<S, In>, calls: seq<In>): (t: Trace<S>)
    ensures |t.results| == |calls|
    ensures t.state.Some? <==> calls != []
  {
    if calls == [] then Trace(None, [])
    else
      var before := Play(alg, calls[..|calls| - 1]);
      var (s, r) := Call(alg, before.state, calls[|calls| - 1]);
      Trace(Some(s), before.results + [r])
  }

  lemma PlaySnoc<S, In>(alg: Algorithm<S, In>, calls: seq<In>, call: In)
    ensures Play(alg, calls + [call]) ==
            var before := Play(alg, calls);
            var (s, r) := Call(alg, before.state, call);
            Trace(Some(s), before.results + [r])
  {
    assert (calls + [call])[..|calls|] == calls;
  }

  /** Later calls never revise earlier answers. */
  lemma {:induction false} PlayPrefix<S, In>(alg: Algorithm<S, In>, calls: seq<In>, n: nat)
    requires n <= |calls|
    ensures Play(alg, calls).results[..n] == Play(alg, calls[..n]).results
  {
    if n < |calls| {
      var shorter := calls[..|calls| - 1];
      PlayPrefix(alg, shorter, n);
      assert shorter[..n] == calls[..n];
      var rs := Play(alg, calls).results;
      assert rs[..n] == Play(alg, shorter).results[..n];
    } else {
      assert calls[..n] == calls;
    }
  }

  /** The times at which a run admitted a request, in call order. */
  function Admissions(ts: seq<int>, rs: seq<Result>): seq<int>
    requires |ts| == |rs|
  {
    if ts == [] then []
    else
      var n := |ts| - 1;
      Admissions(ts[..n], rs[..n]) + (if rs[n].allowed then [ts[n]] else [])
  }

  ghost predicate NonDecreasing(ts: seq<int>) {
    forall i, j :: 0 <= i <= j < |ts| ==> ts[i] <= ts[j]
  }

  // ---- Invariants of runs on a clock that never goes back ----

  function Extend(h: seq<int>, now: int, r: Result): seq<int> {
    if r.allowed then h + [now] else h
  }

  /** `inv` relates a key's state to its admissions so far and the time of its
      last call. */
  ghost predicate HoldsAfter<S>(alg: Algorithm<S, int>, inv: (S, seq<int>, int) -> bool, s: S, h: seq<int>, now: int) {
    var (next, r) := alg.advance(s, now);
    inv(next, Extend(h, now, r), now)
  }

  ghost predicate Preserves<S(!new)>(alg: Algorithm<S, int>, inv: (S, seq<int>, int) -> bool) {
    forall s, h, last, now :: inv(s, h, last) && last <= now ==> HoldsAfter(alg, inv, s, h, now)
  }

  /** The last call of a run was made on a state that satisfied the invariant
      for the history before it. */
  lemma {:induction false} LastCall<S(!new)>(alg: Algorithm<S, int>, inv: (S, seq<int>, int) -> bool, ts: seq<int>)
    returns (s: S, h: seq<int>, last: int)
    requires ts != [] && NonDecreasing(ts)
    requires inv(alg.unseen(ts[0]), [], ts[0]) && Preserves(alg, inv)
    ensures var t := Play(alg, ts);
            var now := ts[|ts| - 1];
            && inv(s, h, last) && last <= now
            && (t.state.value, t.results[|ts| - 1]) == alg.advance(s, now)
            && Admissions(ts, t.results) == Extend(h, now, t.results[|ts| - 1])
            && inv(t.state.value, Admissions(ts, t.results), now)
  {
    var n := |ts| - 1;
    if n == 0 {
      s, h, last := alg.unseen(ts[0]), [], ts[0];
    } else {
      var _, _, _ := LastCall(alg, inv, ts[..n]);
      var before := Play(alg, ts[..n]);
      s, h, last := before.state.value, Admissions(ts[..n], before.results), ts[n - 1];
    }
    assert Play(alg, ts).results[..n] == Play(alg, ts[..n]).results;
    assert HoldsAfter(alg, inv, s, h, ts[n]);
  }

  // ---- One limiter following another ----

  /** Started together and called at the same times, `a` and `b` keep their
      states related and give agreeing answers. */
  ghost predicate Follows<A(!new), B(!new)>(a: Algorithm<A, int>, b: Algorithm<B, int>,
                                           rel: (A, B, int) -> bool, agree: (Result, Result) -> bool) {
    && (forall now :: rel(a.unseen(now), b.unseen(now), now))
    && (forall x, y, last, now :: rel(x, y, last) && last <= now ==> FollowsOnce(a, b, rel, agree, x, y, now))
  }

  ghost predicate FollowsOnce<A, B>(a: Algorithm<A, int>, b: Algorithm<B, int>,
                                    rel: (A, B, int) -> bool, agree: (Result, Result) -> bool, x: A, y: B, now: int) {
    rel(a.advance(x, now).0, b.advance(y, now).0, now) && agree(a.advance(x, now).1, b.advance(y, now).1)
  }

  lemma {:induction false} PlayFollows<A(!new), B(!new)>(a: Algorithm<A, int>, b: Algorithm<B, int>,
                                                        rel: (A, B, int) -> bool, agree: (Result, Result) -> bool,
                                                        ts: seq<int>)
    requires Follows(a, b, rel, agree) && NonDecreasing(ts)
    ensures ts != [] ==> rel(Play(a, ts).state.value, Play(b, ts).state.value, ts[|ts| - 1])
    ensures forall i :: 0 <= i < |ts| ==> agree(Play(a, ts).results[i], Play(b, ts).results[i])
  {
    if ts != [] {
      var n := |ts| - 1;
      PlayFollows(a, b, rel, agree, ts[..n]);
      var pa, pb := Play(a, ts[..n]), Play(b, ts[..n]);
      if n == 0 {
        assert FollowsOnce(a, b, rel, agree, a.unseen(ts[0]), b.unseen(ts[0]), ts[0]);
      } else {
        assert FollowsOnce(a, b, rel, agree, pa.state.value, pb.state.value, ts[n]);
      }
    }
  }

  // ---- Denied calls ----

  /** A fresh key admits its first call, and a denied call leaves a key, for every
      later call, as it found it. */
  ghost predicate DenialsAreSilent<S(!new)>(alg: Algorithm<S, int>, sane: (S, int) -> bool) {
    && (forall now :: sane(alg.unseen(now), now) && alg.advance(alg.unseen(now), now).1.allowed)
    && (forall s, last, now :: sane(s, last) && last <= now ==> SilentAt(alg, sane, s, now))
  }

  ghost predicate SilentAt<S>(alg: Algorithm<S, int>, sane: (S, int) -> bool, s: S, now: int) {
    var (next, r) := alg.advance(s, now);
    sane(next, now) && (!r.allowed ==> SameFrom(alg, next, s, now))
  }

  /** No call from then on tells the two states apart. */
  ghost predicate SameFrom<S>(alg: Algorithm<S, int>, a: S, b: S, now: int) {
    forall later :: now <= later ==> alg.advance(a, later) == alg.advance(b, later)
  }

  /** The entries whose mark says to keep them. */
  function Kept<T>(xs: seq<T>, keep: seq<bool>): seq<T>
    requires |keep| == |xs|
  {
    if xs == [] then []
    else
      var n := |xs| - 1;
      Kept(xs[..n], keep[..n]) + (if keep[n] then [xs[n]] else [])
  }

  lemma KeptSnoc<T>(xs: seq<T>, keep: seq<bool>, x: T, k: bool)
    requires |keep| == |xs|
    ensures Kept(xs + [x], keep + [k]) == Kept(xs, keep) + (if k then [x] else [])
  {
    assert (xs + [x])[..|xs|] == xs && (keep + [k])[..|xs|] == keep;
  }

  /** The shorter run gave the answers it kept, and no later call will tell the two apart. */
  ghost predicate NoTrace<S(!new)>(alg: Algorithm<S, int>, sane: (S, int) -> bool, full: Trace<S>, part: Trace<S>,
                                   keep: seq<bool>, last: int, now: int) {
    && |keep| == |full.results| && part.results == Kept(full.results, keep)
    && (full.state.Some? <==> part.state.Some?)
    && (full.state.Some? ==>
          && last <= now && sane(part.state.value, last)
          && SameFrom(alg, full.state.value, part.state.value, now))
  }

  function Extended<S, In>(alg: Algorithm<S, In>, t: Trace<S>, call: In): Trace<S> {
    var (s, r) := Call(alg, t.state, call);
    Trace(Some(s), t.results + [r])
  }

  lemma NoTraceOn<S(!new)>(alg: Algorithm<S, int>, sane: (S, int) -> bool, full: Trace<S>, part: Trace<S>,
                           keep: seq<bool>, last: int, since: int, now: int, k: bool)
    requires DenialsAreSilent(alg, sane) && NoTrace(alg, sane, full, part, keep, last, since)
    requires (full.state.Some? ==> since <= now) && (k || !Call(alg, full.state, now).1.allowed)
    ensures NoTrace(alg, sane, Extended(alg, full, now), if k then Extended(alg, part, now) else part,
                    keep + [k], if k then now else last, now)
  {
    hide DenialsAreSilent, SameFrom, Kept;
    KeptSnoc(full.results, keep, Call(alg, full.state, now).1, k);
    if full.state.None? {
      FirstIsAdmitted(alg, sane, now);
    } else {
      StillAlike(alg, sane, full.state.value, part.state.value, last, since, now);
    }
  }

  /** Only denied calls are left out. */
  ghost predicate DropsDenials(rs: seq<Result>, keep: seq<bool>) {
    |keep| == |rs| && forall i :: 0 <= i < |rs| ==> keep[i] || !rs[i].allowed
  }

  /** Any of the denied calls of a run may be left out: every other call, denied or
      admitted, gets the answer it got. */
  lemma {:induction false} DenialsLeaveNoTrace<S(!new)>(alg: Algorithm<S, int>, sane: (S, int) -> bool,
                                                       ts: seq<int>, keep: seq<bool>) returns (last: int)
    requires DenialsAreSilent(alg, sane) && NonDecreasing(ts) && DropsDenials(Play(alg, ts).results, keep)
    ensures Play(alg, Kept(ts, keep)).results == Kept(Play(alg, ts).results, keep)
    ensures NoTrace(alg, sane, Play(alg, ts), Play(alg, Kept(ts, keep)), keep, last, LastOf(ts))
  {
    if ts == [] {
      last := 0;
    } else {
      hide DenialsAreSilent, SameFrom, NoTrace, Kept, Play, NonDecreasing, DropsDenials;
      var n := |ts| - 1;
      var past, now := ts[..n], ts[n];
      PriorDenials(alg, ts, keep);
      var before := DenialsLeaveNoTrace(alg, sane, past, keep[..n]);
      last := OneMoreCall(alg, sane, past, keep[..n], before, now, keep[n]);
      assert past + [now] == ts && keep[..n] + [keep[n]] == keep;
      KeptResults(alg, sane, Play(alg, ts), Play(alg, Kept(ts, keep)), keep, last, now);
    }
  }

  function LastOf(ts: seq<int>): int {
    if ts == [] then 0 else ts[|ts| - 1]
  }

  lemma PriorDenials<S>(alg: Algorithm<S, int>, ts: seq<int>, keep: seq<bool>)
    requires ts != [] && NonDecreasing(ts) && DropsDenials(Play(alg, ts).results, keep)
    ensures var n := |ts| - 1;
            && NonDecreasing(ts[..n]) && (n > 0 ==> LastOf(ts[..n]) <= ts[n])
            && |keep| == |ts| && DropsDenials(Play(alg, ts[..n]).results, keep[..n])
            && (keep[n] || !Call(alg, Play(alg, ts[..n]).state, ts[n]).1.allowed)
  {
    var n := |ts| - 1;
    var rs, before := Play(alg, ts).results, Play(alg, ts[..n]).results;
    assert rs[..n] == before;
    forall i | 0 <= i < n
      ensures keep[..n][i] || !before[i].allowed
    {
      assert before[i] == rs[i];
    }
  }

  lemma OneMoreCall<S(!new)>(alg: Algorithm<S, int>, sane: (S, int) -> bool, past: seq<int>, keep: seq<bool>,
                             before: int, now: int, k: bool) returns (last: int)
    requires DenialsAreSilent(alg, sane) && |keep| == |past| && (past != [] ==> LastOf(past) <= now)
    requires NoTrace(alg, sane, Play(alg, past), Play(alg, Kept(past, keep)), keep, before, LastOf(past))
    requires k || !Call(alg, Play(alg, past).state, now).1.allowed
    ensures |keep + [k]| == |past + [now]|
    ensures NoTrace(alg, sane, Play(alg, past + [now]), Play(alg, Kept(past + [now], keep + [k])), keep + [k], last,
                    now)
  {
    var full, part := Play(alg, past), Play(alg, Kept(past, keep));
    assert full.state.Some? ==> past != [];
    hide DenialsAreSilent, SameFrom, NoTrace, Kept, Play;
    last := if k then now else before;
    KeptSnoc(past, keep, now, k);
    PlaySnoc(alg, past, now);
    PlaySnoc(alg, Kept(past, keep), now);
    NoTraceOn(alg, sane, full, part, keep, before, LastOf(past), now, k);
    if !k {
      assert Kept(past, keep) + [] == Kept(past, keep);
    }
  }

  lemma KeptResults<S(!new)>(alg: Algorithm<S, int>, sane: (S, int) -> bool, full: Trace<S>, part: Trace<S>,
                             keep: seq<bool>, last: int, now: int)
    requires NoTrace(alg, sane, full, part, keep, last, now)
    ensures |keep| == |full.results| && part.results == Kept(full.results, keep)
  {
  }

  lemma FirstIsAdmitted<S(!new)>(alg: Algorithm<S, int>, sane: (S, int) -> bool, now: int)
    requires DenialsAreSilent(alg, sane)
    ensures var (s, r) := alg.advance(alg.unseen(now), now);
            r.allowed && sane(s, now) && SameFrom(alg, s, s, now)
  {
    assert SilentAt(alg, sane, alg.unseen(now), now);
  }

  lemma StillAlike<S(!new)>(alg: Algorithm<S, int>, sane: (S, int) -> bool, a: S, b: S, last: int, since: int, now: int)
    requires DenialsAreSilent(alg, sane) && sane(b, last) && last <= since <= now && SameFrom(alg, a, b, since)
    ensures alg.advance(a, now) == alg.advance(b, now)
    ensures var (s, r) := alg.advance(b, now);
            sane(s, now) && SameFrom(alg, s, s, now) && (!r.allowed ==> SameFrom(alg, s, b, now))
  {
    assert SilentAt(alg, sane, b, now);
  }

  // ---- Runs over many keys ----

  datatype Table<S> = Table(states: map<string, S>, results: seq<Result>)

  function Lookup<S>(m: map<string, S>, key: string): Option<S> {
    if key in m then Some(m[key]) else None
  }

  function PlayKeyed<S, In>(alg: Algorithm<S, In>, calls: seq<(string, In)>): (t: Table<S>)
    ensures |t.results| == |calls|
  {
    if calls == [] then Table(map[], [])
    else
      var before := PlayKeyed(alg, calls[..|calls| - 1]);
      var (key, call) := calls[|calls| - 1];
      var (s, r) := Call(alg, Lookup(before.states, key), call);
      Table(before.states[key := s], before.results + [r])
  }

  function CallsOn<In>(calls: seq<(string, In)>, key: string): seq<In> {
    if calls == [] then []
    else
      var n := |calls| - 1;
      CallsOn(calls[..n], key) + (if calls[n].0 == key then [calls[n].1] else [])
  }

  function ResultsOn<In>(calls: seq<(string, In)>, rs: seq<Result>, key: string): seq<Result>
    requires |calls| == |rs|
  {
    if calls == [] then []
    else
      var n := |calls| - 1;
      ResultsOn(calls[..n], rs[..n], key) + (if calls[n].0 == key then [rs[n]] else [])
  }

  /** A key's state and answers depend only on that key's own calls. */
  lemma {:induction false} KeysAreIndependent<S, In>(alg: Algorithm<S, In>, calls: seq<(string, In)>, key: string)
    ensures Lookup(PlayKeyed(alg, calls).states, key) == Play(alg, CallsOn(calls, key)).state
    ensures ResultsOn(calls, PlayKeyed(alg, calls).results, key) == Play(alg, CallsOn(calls, key)).results
  {
    if calls != [] {
      var n := |calls| - 1;
      KeysAreIndependent(alg, calls[..n], key);
      var rs := PlayKeyed(alg, calls).results;
      assert rs[..n] == PlayKeyed(alg, calls[..n]).results;
      if calls[n].0 == key {
        PlaySnoc(alg, CallsOn(calls[..n], key), calls[n].1);
        assert CallsOn(calls, key) == CallsOn(calls[..n], key) + [calls[n].1];
      } else {
        assert CallsOn(calls, key) == CallsOn(calls[..n], key);
      }
    }
  }

  // ---- Repeated calls at one instant ----

  /** The answer to the (n+1)-th of a row of identical calls. */
  function Again<S, In>(alg: Algorithm<S, In>, s: S, call: In, n: nat): Result {
    var (next, r) := alg.advance(s, call);
    if n == 0 then r else Again(alg, next, call, n - 1)
  }

  /** After any call at all, `remaining` is exactly how many more calls at the
      same instant are admitted; every one after those is denied. */
  ghost predicate RemainingIsExact<S(!new), In(!new)>(alg: Algorithm<S, In>) {
    forall s: S, call: In :: RemainingIsExactAt(alg, s, call)
  }

  ghost predicate RemainingIsExactAt<S, In>(alg: Algorithm<S, In>, s: S, call: In) {
    var (next, r) := alg.advance(s, call);
    forall n: nat :: Again(alg, next, call, n).allowed <==> n < r.remaining
  }

  /** The last of n+1 identical calls at the end of a run. */
  lemma {:induction false} PlayAgain<S, In>(alg: Algorithm<S, In>, s: S, calls: seq<In>, call: In, n: nat)
    requires Play(alg, calls).state == Some(s)
    ensures var all := calls + seq(n + 1, _ => call);
            Play(alg, all).results[|calls| + n] == Again(alg, s, call, n)
    decreases n
  {
    PlaySnoc(alg, calls, call);
    var more := calls + [call];
    if n == 0 {
      assert calls + seq(1, _ => call) == more;
    } else {
      PlayAgain(alg, alg.advance(s, call).0, more, call, n - 1);
      assert more + seq(n, _ => call) == calls + seq(n + 1, _ => call);
    }
  }

  /** Whatever happens on other keys in between, the i-th later call on `key` at
      the instant of an earlier answer `r` is admitted iff i < r.remaining. */
  lemma RemainingHoldsAcrossKeys<S(!new), In(!new)>(alg: Algorithm<S, In>, before: seq<(string, In)>,
                                                    key: string, call: In, after: seq<(string, In)>)
    requires RemainingIsExact(alg)
    requires forall c :: c in after && c.0 == key ==> c.1 == call
    ensures var first := before + [(key, call)];
            var r := PlayKeyed(alg, first).results[|before|];
            var all := first + after;
            var mine := ResultsOn(all, PlayKeyed(alg, all).results, key);
            var seen := |CallsOn(first, key)|;
            && |mine| == seen + |CallsOn(after, key)|
            && forall i :: seen <= i < |mine| ==> (mine[i].allowed <==> i - seen < r.remaining)
  {
    var first := before + [(key, call)];
    var all := first + after;
    assert first[..|before|] == before;
    CallsOnConcat(first, after, key);
    KeysAreIndependent(alg, before, key);
    KeysAreIndependent(alg, all, key);
    var earlier, later := CallsOn(before, key), CallsOn(after, key);
    assert CallsOn(first, key) == earlier + [call];
    var mine := ResultsOn(all, PlayKeyed(alg, all).results, key);
    var r := PlayKeyed(alg, first).results[|before|];
    forall k | |earlier| + 1 <= k < |mine|
      ensures mine[k].allowed <==> k - (|earlier| + 1) < r.remaining
    {
      OnlyCall(after, key, call);
      RemainingHoldsOnKey(alg, earlier, call, later, k - (|earlier| + 1));
    }
  }

  /** The same on the calls of one key alone. */
  lemma RemainingHoldsOnKey<S(!new), In(!new)>(alg: Algorithm<S, In>, earlier: seq<In>, call: In, later: seq<In>,
                                               i: nat)
    requires RemainingIsExact(alg)
    requires i < |later| && forall k :: 0 <= k < |later| ==> later[k] == call
    ensures Play(alg, earlier + [call] + later).results[|earlier| + 1 + i].allowed <==>
            i < Call(alg, Play(alg, earlier).state, call).1.remaining
  {
    var mine := earlier + [call];
    var whole := mine + later;
    var upTo := mine + seq(i + 1, _ => call);
    assert whole[..|upTo|] == upTo;
    PlayPrefix(alg, whole, |upTo|);
    AgainAfter(alg, earlier, call, i);
    assert Play(alg, whole).results[|mine| + i] == Play(alg, whole).results[..|upTo|][|mine| + i];
  }

  lemma AgainAfter<S(!new), In(!new)>(alg: Algorithm<S, In>, earlier: seq<In>, call: In, i: nat)
    requires RemainingIsExact(alg)
    ensures Play(alg, earlier + [call] + seq(i + 1, _ => call)).results[|earlier| + 1 + i].allowed <==>
            i < Call(alg, Play(alg, earlier).state, call).1.remaining
  {
    PlaySnoc(alg, earlier, call);
    var state := Play(alg, earlier).state;
    var s0 := if state.Some? then state.value else alg.unseen(call);
    assert RemainingIsExactAt(alg, s0, call);
    PlayAgain(alg, alg.advance(s0, call).0, earlier + [call], call, i);
  }

  lemma {:induction false} CallsOnConcat<In>(xs: seq<(string, In)>, ys: seq<(string, In)>, key: string)
    ensures CallsOn(xs + ys, key) == CallsOn(xs, key) + CallsOn(ys, key)
  {
    if ys == [] {
      assert xs + ys == xs;
    } else {
      var n := |ys| - 1;
      CallsOnConcat(xs, ys[..n], key);
      assert (xs + ys)[..|xs| + n] == xs + ys[..n];
    }
  }

  lemma {:induction false} OnlyCall<In>(calls: seq<(string, In)>, key: string, call: In)
    requires forall c :: c in calls && c.0 == key ==> c.1 == call
    ensures forall i :: 0 <= i < |CallsOn(calls, key)| ==> CallsOn(calls, key)[i] == call
  {
    if calls != [] {
      OnlyCall(calls[..|calls| - 1], key, call);
    }
  }
}
