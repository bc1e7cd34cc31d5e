/** The token bucket script. Its arithmetic is that of the in-memory bucket on
    Redis's clock; what it adds is a time to live. Times are in nanoseconds. */
module TokenBucketScript {
  import opened Arith
  import opened Limiter
  import opened Expiry
  import B = TokenBuckets

  /** When the key may vanish: once the bucket has refilled, rounded up to a
      millisecond, and a second later. */
  function Deadline(capacity: pos, interval: pos, level: int, now: int): int {
    var ttl := CeilDiv(capacity * interval - level, capacity * MILLISECOND) + 1000;
    (now / MILLISECOND + ttl) * MILLISECOND
  }

  /** What every stored bucket satisfies. */
  predicate Sane(capacity: pos, interval: pos, b: B.Bucket) {
    0 <= b.level <= capacity * interval
  }

  function Spec(capacity: pos, interval: pos): Script<B.Bucket, int> {
    Script(B.Spec(capacity, interval),
           (b: B.Bucket) => Sane(capacity, interval, b),
           (now: int) => now,
           (b: B.Bucket, now: int) => Deadline(capacity, interval, b.level, now))
  }

  class Redis {
    const capacity: pos
    const interval: pos
    var keys: map<string, Stored<B.Bucket>>

    ghost predicate Valid()
      reads this
    {
      forall k :: k in keys ==> Sane(capacity, interval, keys[k].state)
    }

    constructor (capacity: pos, interval: pos)
      ensures Valid() && keys == map[] && this.capacity == capacity && this.interval == interval
    {
      this.capacity, this.interval := capacity, interval;
      keys := map[];
    }

    /** One evaluation of the script. */
    method Eval(key: string, now: int) returns (res: Result)
      requires Valid()
      modifies `keys
      ensures Valid()
      ensures var (stored, r) := Serve(Spec(capacity, interval), Lookup(old(keys), key), now);
              keys == old(keys)[key := stored] && res == r
    {
      MulMono(1, capacity, interval);
      var tokens, last := capacity * interval, now;
      if key in keys {
        tokens, last := keys[key].state.level, keys[key].state.lastSeen;
      }
      var elapsed := now - last;
      if elapsed > 0 {
        MulMono(0, elapsed, capacity);
        tokens := Min(capacity * interval, tokens + elapsed * capacity);
      }
      var allowed, retryAfter := false, 0;
      if tokens >= interval {
        tokens := tokens - interval;
        allowed := true;
      } else {
        retryAfter := B.DurationFor(capacity, interval - tokens);
      }
      FloorDivLaw(tokens, interval, 1);
      FloorDivLaw(tokens, interval, 0);
      var resetAfter := capacity * interval - tokens;
      var ttl := CeilDiv(resetAfter, capacity * MILLISECOND) + 1000;
      keys := keys[key := Stored(B.Bucket(tokens, now), (now / MILLISECOND + ttl) * MILLISECOND)];
      res := Result(allowed, capacity, tokens / interval,
                    B.DurationFor(capacity, resetAfter), retryAfter);
    }

    /** Redis reclaims a key whose time to live has passed. */
    method Expire(key: string, now: int)
      requires Valid()
      modifies `keys
      ensures Valid()
      ensures Lookup(keys, key) == Drop(Lookup(old(keys), key), now)
      ensures forall k :: k != key ==> Lookup(keys, k) == Lookup(old(keys), k)
    {
      if key in keys && now >= keys[key].deadline {
        keys := keys - {key};
      }
    }
  }

  /** By its deadline a bucket has refilled, so forgetting it changes nothing. */
  lemma BucketFades(capacity: pos, interval: pos, level: int, now: int, later: int)
    requires level <= capacity * interval && later >= Deadline(capacity, interval, level, now)
    ensures B.Refill(capacity, interval, B.Bucket(level, now), later) ==
            B.Refill(capacity, interval, B.Full(capacity, interval, later), later)
  {
    var missing := capacity * interval - level;
    var unit := capacity * MILLISECOND;
    var ms := CeilDiv(missing, unit);
    CeilDivLaw(missing, unit, ms);
    CeilDivLaw(missing, unit, -1);
    assert later - now >= (ms + 999) * MILLISECOND;
    MulMono((ms + 999) * MILLISECOND, later - now, capacity);
    assert (ms + 999) * MILLISECOND * capacity == ms * unit + 999 * unit;
  }

  lemma AdvanceStaysSane(capacity: pos, interval: pos, b: B.Bucket, now: int)
    requires Sane(capacity, interval, b)
    ensures Sane(capacity, interval, B.Advance(capacity, interval, b, now).0)
  {
    if now > b.lastSeen {
      MulMono(0, now - b.lastSeen, capacity);
    }
  }

  /** Redis may forget any bucket whose time to live has passed. */
  lemma BucketsMayExpire(capacity: pos, interval: pos)
    ensures OutlivesItsState(Spec(capacity, interval))
  {
    var script := Spec(capacity, interval);
    MulMono(1, capacity, interval);
    forall b: B.Bucket, now: int | script.sane(b)
      ensures StoresFading(script, b, now)
    {
      var next := script.alg.advance(b, now).0;
      AdvanceStaysSane(capacity, interval, b, now);
      forall later: int | later >= script.deadline(next, now)
        ensures script.alg.advance(next, later) == script.alg.advance(script.alg.unseen(later), later)
      {
        BucketFades(capacity, interval, next.level, now, later);
      }
    }
  }

  /** And no key outlives the moment its bucket is full by more than a second and a
      millisecond, so keys do not pile up. */
  lemma BucketKeysEnd(capacity: pos, interval: pos, b: B.Bucket, d: nat)
    requires b.level <= capacity * interval && B.FullAfter(capacity, interval, b, d)
    ensures Deadline(capacity, interval, b.level, b.lastSeen) <= b.lastSeen + d + SECOND + MILLISECOND
  {
    B.FullOnceRefilled(capacity, interval, b, d);
    var missing, unit := capacity * interval - b.level, capacity * MILLISECOND;
    FloorDivLaw(d, MILLISECOND, d / MILLISECOND + 1);
    MulMono(d, (d / MILLISECOND + 1) * MILLISECOND, capacity);
    assert (d / MILLISECOND + 1) * MILLISECOND * capacity == (d / MILLISECOND + 1) * unit;
    CeilDivLaw(missing, unit, d / MILLISECOND + 1);
    EndsInTime(b.lastSeen, d, CeilDiv(missing, unit));
  }

  /** So forgetting buckets never changes an answer. */
  lemma ForgettingBucketsIsUnobservable(capacity: pos, interval: pos, events: seq<Event<int>>)
    requires InOrder(Spec(capacity, interval), events)
    ensures PlayExpiring(Spec(capacity, interval), events).results ==
            Play(Spec(capacity, interval).alg, Requests(events)).results
  {
    BucketsMayExpire(capacity, interval);
    ExpiryIsUnobservable(Spec(capacity, interval), events);
  }
}

/** The sliding window counter script: the counter on a grid of windows shared by
    all callers, counting windows in whole milliseconds. */
module CounterScript {
  import opened Arith
  import opened Wrappers
  import opened Limiter
  import opened Expiry
  import C = WindowCounters

  datatype Counts = Counts(window: int, curr: nat, prev: nat)

  function Roll(length: pos, s: Counts, now: int): Counts {
    var current := now / length;
    if s.window < current - 1 then Counts(current, 0, 0)
    else if s.window == current - 1 then Counts(current, 0, s.curr)
    else s.(window := current)
  }

  function RetryAfter(limit: pos, millis: pos, s: Counts, elapsed: int): int {
    var length := millis * MILLISECOND;
    var remainder := length - elapsed;
    if s.prev == 0 then
      if s.curr == 0 then remainder
      else
        var over := s.curr - limit + 1;
        if over < 0 then remainder
        else remainder + CeilDiv(over * millis, s.curr) * MILLISECOND
    else
      var target := limit - 1 - s.curr;
      if target < 0 then remainder
      else if target == 0 then remainder
      else
        var wait := CeilDiv((s.prev - target) * millis, s.prev) * MILLISECOND - elapsed;
        if wait <= 0 then MILLISECOND
        else if wait > remainder then remainder
        else wait
  }

  function Decide(limit: pos, millis: pos, s: Counts, now: int): (Counts, Result) {
    var length: pos := millis * MILLISECOND;
    var elapsed := now - s.window * length;
    var load := s.prev * (length - elapsed) + s.curr * length;
    if load + length <= limit * length then
      (s.(curr := s.curr + 1),
       Result(true, limit, (limit * length - (load + length)) / length, length - elapsed, 0))
    else
      (s, Result(false, limit, 0, length - elapsed, RetryAfter(limit, millis, s, elapsed)))
  }

  function Advance(limit: pos, millis: pos, s: Counts, now: int): (Counts, Result) {
    Decide(limit, millis, Roll(millis * MILLISECOND, s, now), now)
  }

  function Deadline(millis: pos, now: int): int {
    (now / MILLISECOND + 2 * millis + 1000) * MILLISECOND
  }

  function Spec(limit: pos, millis: pos): Script<Counts, int> {
    Script(Algorithm((now: int) => Counts(now / (millis * MILLISECOND), 0, 0),
                     (s: Counts, now: int) => Advance(limit, millis, s, now)),
           (s: Counts) => true,
           (now: int) => now,
           (s: Counts, now: int) => Deadline(millis, now))
  }

  class Redis {
    const limit: pos
    const millis: pos
    var keys: map<string, Stored<Counts>>

    constructor (limit: pos, millis: pos)
      ensures keys == map[] && this.limit == limit && this.millis == millis
    {
      this.limit, this.millis := limit, millis;
      keys := map[];
    }

    /** One evaluation of the script. */
    method Eval(key: string, now: int) returns (res: Result)
      modifies `keys
      ensures var (stored, r) := Serve(Spec(limit, millis), Lookup(old(keys), key), now);
              keys == old(keys)[key := stored] && res == r
    {
      var length: pos := millis * MILLISECOND;
      var currentWindow := now / length;
      var elapsed := now - currentWindow * length;
      var storedWindow, curr, prev := None, 0, 0;
      if key in keys {
        storedWindow := Some(keys[key].state.window);
        curr, prev := keys[key].state.curr, keys[key].state.prev;
      }
      if storedWindow == None {
        curr, prev := 0, 0;
      } else if storedWindow.value < currentWindow - 1 {
        curr, prev := 0, 0;
      } else if storedWindow.value == currentWindow - 1 {
        prev := curr;
        curr := 0;
      }
      var next;
      next, res := Charge(Counts(currentWindow, curr, prev), now, elapsed);
      keys := keys[key := Stored(next, (now / MILLISECOND + 2 * millis + 1000) * MILLISECOND)];
    }

    method Charge(s: Counts, now: int, elapsed: int) returns (next: Counts, res: Result)
      requires elapsed == now - s.window * (millis * MILLISECOND)
      ensures (next, res) == Decide(limit, millis, s, now)
    {
      var length: pos := millis * MILLISECOND;
      var load := s.prev * (length - elapsed) + s.curr * length;
      var curr, allowed, remaining, retryAfter := s.curr, false, 0, 0;
      if load + length <= limit * length {
        curr := curr + 1;
        allowed := true;
        var room := limit * length - (load + length);
        if room > 0 {
          remaining := room / length;
        }
      } else {
        retryAfter := RetryAfter(limit, millis, s, elapsed);
      }
      next := s.(curr := curr);
      res := Result(allowed, limit, remaining, length - elapsed, retryAfter);
    }

    /** Redis reclaims a key whose time to live has passed. */
    method Expire(key: string, now: int)
      modifies `keys
      ensures Lookup(keys, key) == Drop(Lookup(old(keys), key), now)
      ensures forall k :: k != key ==> Lookup(keys, k) == Lookup(old(keys), k)
    {
      if key in keys && now >= keys[key].deadline {
        keys := keys - {key};
      }
    }
  }

  /** Two whole windows and a second later both counts have aged out. */
  lemma CountsFade(millis: pos, s: Counts, now: int, later: int)
    requires s.window == now / (millis * MILLISECOND) && later >= Deadline(millis, now)
    ensures var length: pos := millis * MILLISECOND;
            Roll(length, s, later) == Roll(length, Counts(later / length, 0, 0), later)
  {
    var length := millis * MILLISECOND;
    var q := now / length;
    assert later >= now + 2 * length;
    FloorDivLaw(now, length, q);
    FloorDivLaw(later, length, q + 2);
    assert (q + 2) * length == q * length + 2 * length;
  }

  /** Redis may forget any pair of counts whose time to live has passed. */
  lemma CountsMayExpire(limit: pos, millis: pos)
    ensures OutlivesItsState(Spec(limit, millis))
  {
    var script := Spec(limit, millis);
    forall s: Counts, now: int
      ensures StoresFading(script, s, now)
    {
      var next := script.alg.advance(s, now).0;
      forall later: int | later >= script.deadline(next, now)
        ensures script.alg.advance(next, later) == script.alg.advance(script.alg.unseen(later), later)
      {
        CountsFade(millis, next, now, later);
      }
    }
  }

  /** And no key outlives its call by more than two windows and a second. */
  lemma CountKeysEnd(millis: pos, now: int)
    ensures Deadline(millis, now) <= now + 2 * (millis * MILLISECOND) + SECOND
  {
  }

  /** So forgetting counts never changes an answer. */
  lemma ForgettingCountsIsUnobservable(limit: pos, millis: pos, events: seq<Event<int>>)
    requires InOrder(Spec(limit, millis), events)
    ensures PlayExpiring(Spec(limit, millis), events).results == Play(Spec(limit, millis).alg, Requests(events)).results
  {
    CountsMayExpire(limit, millis);
    ExpiryIsUnobservable(Spec(limit, millis), events);
  }

  // ---- The script is the in-memory counter on the grid ----

  function AsCounter(length: pos, s: Counts): C.Counter {
    C.Counter(s.window * length, s.curr, s.prev)
  }

  lemma RollsAlike(length: pos, s: Counts, now: int)
    requires s.window * length <= now
    ensures AsCounter(length, Roll(length, s, now)) == C.Roll(length, AsCounter(length, s), now)
  {
    var c := AsCounter(length, s);
    C.RollIsShift(length, c, now);
    C.ShiftedQuotient(now, length, s.window);
    var k := now / length - s.window;
    assert C.WindowsGone(length, c, now) == k;
    assert (s.window + k) * length == s.window * length + k * length;
  }

  lemma DecidesAlike(limit: pos, millis: pos, s: Counts, now: int)
    ensures var length: pos := millis * MILLISECOND;
            var c := AsCounter(length, s);
            var (next, r) := Decide(limit, millis, s, now);
            && (r.allowed <==> C.Fits(limit, length, c, now))
            && AsCounter(length, next) == (if r.allowed then c.(curr := c.curr + 1) else c)
            && r.limit == limit
            && r.resetAfter == length - (now - c.start)
            && (r.allowed ==> r.remaining == (limit * length - (C.Load(length, c, now) + length)) / length)
            && (!r.allowed ==> r.remaining == 0)
            && r.retryAfter == (if r.allowed then 0 else RetryAfter(limit, millis, s, now - c.start))
  {
  }

  /** Rounding to whole milliseconds lengthens a wait by less than one of them. */
  lemma CoarseCeiling(a: int, b: int, unit: int)
    requires b > 0 && unit > 0
    ensures CeilDiv(a * unit, b) <= CeilDiv(a, b) * unit < CeilDiv(a * unit, b) + unit
  {
    var q := CeilDiv(a, b);
    CeilDivLaw(a, b, q);
    CeilDivLaw(a, b, q - 1);
    MulMono(a, q * b, unit);
    assert (q * b) * unit == (q * unit) * b;
    CeilDivLaw(a * unit, b, q * unit);
    MulMonoStrict((q - 1) * b, a, unit);
    assert ((q - 1) * b) * unit == ((q - 1) * unit) * b;
    CeilDivLaw(a * unit, b, (q - 1) * unit);
    assert (q - 1) * unit == q * unit - unit;
  }

  lemma RetriesAlike(limit: pos, millis: pos, s: Counts, now: int)
    requires C.Denied(limit, millis * MILLISECOND, AsCounter(millis * MILLISECOND, s), now)
    ensures var length: pos := millis * MILLISECOND;
            var c := AsCounter(length, s);
            var exact := C.RetryAfter(limit, length, c, now - c.start);
            exact <= RetryAfter(limit, millis, s, now - c.start) < exact + MILLISECOND
  {
    var length: pos := millis * MILLISECOND;
    var c := AsCounter(length, s);
    C.RetryBranches(limit, length, c, now);
    if s.prev == 0 {
      CoarseCeiling((s.curr - limit + 1) * millis, s.curr, MILLISECOND);
      assert (s.curr - limit + 1) * millis * MILLISECOND == length;
    } else {
      CoarseThreshold(millis, s.prev + s.curr + 1 - limit, s.prev);
    }
  }

  lemma CoarseThreshold(millis: pos, over: int, prev: pos)
    requires over <= prev
    ensures var length := millis * MILLISECOND;
            var exact, coarse := CeilDiv(over * length, prev), CeilDiv(over * millis, prev) * MILLISECOND;
            exact <= coarse < exact + MILLISECOND && coarse <= length
  {
    CoarseCeiling(over * millis, prev, MILLISECOND);
    assert over * millis * MILLISECOND == over * (millis * MILLISECOND);
    MulMono(over, prev, millis);
    assert millis * prev == prev * millis;
    CeilDivLaw(over * millis, prev, millis as int);
    MulMono(CeilDiv(over * millis, prev), millis as int, MILLISECOND);
  }

  ghost predicate SameKey(limit: pos, length: pos, s: Counts, c: C.Counter, last: int) {
    c == AsCounter(length, s) && C.Sane(limit, c) && c.start <= last < c.start + length
  }

  /** Equal answers, but for a wait rounded up to the millisecond. */
  ghost predicate SameAnswer(script: Result, exact: Result) {
    && script.allowed == exact.allowed
    && script.limit == exact.limit
    && script.remaining == exact.remaining
    && script.resetAfter == exact.resetAfter
    && exact.retryAfter <= script.retryAfter < exact.retryAfter + MILLISECOND
  }

  lemma FollowsCounter(limit: pos, millis: pos)
    ensures var length: pos := millis * MILLISECOND;
            Follows(Spec(limit, millis).alg, C.Spec(limit, length, C.Grid),
                    (s, c, last) => SameKey(limit, length, s, c, last), (r, r') => SameAnswer(r, r'))
  {
    var length: pos := millis * MILLISECOND;
    var a, b := Spec(limit, millis).alg, C.Spec(limit, length, C.Grid);
    var rel := (s, c, last) => SameKey(limit, length, s, c, last);
    var agree := (r, r') => SameAnswer(r, r');
    forall now
      ensures rel(a.unseen(now), b.unseen(now), now)
    {
      FloorDivLaw(now, length, now / length);
      FloorDivLaw(now, length, now / length + 1);
      assert (now / length + 1) * length == now / length * length + length;
    }
    forall s: Counts, c: C.Counter, last: int, now: int | rel(s, c, last) && last <= now
      ensures FollowsOnce(a, b, rel, agree, s, c, now)
    {
      StepFollows(limit, millis, s, c, last, now);
    }
  }

  lemma StepFollows(limit: pos, millis: pos, s: Counts, c: C.Counter, last: int, now: int)
    requires SameKey(limit, millis * MILLISECOND, s, c, last) && last <= now
    ensures var length: pos := millis * MILLISECOND;
            var (s', r) := Advance(limit, millis, s, now);
            var (c', exact) := C.Advance(limit, length, c, now);
            SameKey(limit, length, s', c', now) && SameAnswer(r, exact)
  {
    hide Roll, C.Roll, RetryAfter, C.RetryAfter;
    var length: pos := millis * MILLISECOND;
    RollsAlike(length, s, now);
    C.RollCovers(length, c, now);
    var rolled := Roll(length, s, now);
    DecidesAlike(limit, millis, rolled, now);
    C.RollStaysSane(limit, length, c, now);
    var e := C.Roll(length, c, now);
    if C.Fits(limit, length, e, now) {
      C.RoomInWindow(limit, length, e.prev, e.curr, now - e.start);
    } else {
      RetriesAlike(limit, millis, rolled, now);
    }
  }

  /** On any clock that never goes back the script answers as the in-memory
      counter on the same grid would, so every property of that counter is one of
      the script. */
  lemma ScriptIsCounter(limit: pos, millis: pos, ts: seq<int>)
    requires NonDecreasing(ts)
    ensures var length: pos := millis * MILLISECOND;
            var script, exact := Play(Spec(limit, millis).alg, ts), Play(C.Spec(limit, length, C.Grid), ts);
            && (ts != [] ==> SameKey(limit, length, script.state.value, exact.state.value, ts[|ts| - 1]))
            && forall i :: 0 <= i < |ts| ==> SameAnswer(script.results[i], exact.results[i])
  {
    var length: pos := millis * MILLISECOND;
    FollowsCounter(limit, millis);
    PlayFollows(Spec(limit, millis).alg, C.Spec(limit, length, C.Grid),
                (s, c, last) => SameKey(limit, length, s, c, last), (r, r') => SameAnswer(r, r'), ts);
  }

  /** A call of the script d after the last one at `now`, with nothing in between,
      is admitted. */
  predicate AdmitsAfter(limit: pos, millis: pos, s: Counts, now: int, d: nat) {
    Advance(limit, millis, s, now + d).1.allowed
  }

  /** The script's advertised wait is enough, as is any longer one, and it is less
      than a millisecond more than the least one. */
  lemma ScriptRetrySuffices(limit: pos, millis: pos, ts: seq<int>)
    requires ts != [] && NonDecreasing(ts)
    requires !Play(Spec(limit, millis).alg, ts).results[|ts| - 1].allowed
    ensures var t, now := Play(Spec(limit, millis).alg, ts), ts[|ts| - 1];
            var retry := t.results[|ts| - 1].retryAfter;
            && (forall d: nat :: d >= retry ==> AdmitsAfter(limit, millis, t.state.value, now, d))
            && (forall d: nat :: d <= retry - MILLISECOND ==> !AdmitsAfter(limit, millis, t.state.value, now, d))
  {
    hide AdmitsAfter, C.AdmitsAfter, SameKey, Advance, C.Advance;
    var length: pos := millis * MILLISECOND;
    ScriptIsCounter(limit, millis, ts);
    C.RetryAfterIsLeast(limit, length, C.Grid, ts);
    var t, exact := Play(Spec(limit, millis).alg, ts), Play(C.Spec(limit, length, C.Grid), ts);
    assert SameAnswer(t.results[|ts| - 1], exact.results[|ts| - 1]);
    RetrySufficesAlike(limit, millis, t.state.value, exact.state.value, ts[|ts| - 1],
                       t.results[|ts| - 1].retryAfter, exact.results[|ts| - 1].retryAfter);
  }

  lemma RetrySufficesAlike(limit: pos, millis: pos, s: Counts, c: C.Counter, now: int, retry: int, exact: int)
    requires SameKey(limit, millis * MILLISECOND, s, c, now) && exact <= retry < exact + MILLISECOND
    requires C.RetryIsLeast(limit, millis * MILLISECOND, c, now, exact)
    ensures forall d: nat :: d >= retry ==> AdmitsAfter(limit, millis, s, now, d)
    ensures forall d: nat :: d <= retry - MILLISECOND ==> !AdmitsAfter(limit, millis, s, now, d)
  {
    hide AdmitsAfter, C.AdmitsAfter, SameKey;
    forall d: nat
      ensures AdmitsAfter(limit, millis, s, now, d) == C.AdmitsAfter(limit, millis * MILLISECOND, c, now, d)
    {
      AdmitsAlike(limit, millis, s, c, now, d);
    }
  }

  lemma AdmitsAlike(limit: pos, millis: pos, s: Counts, c: C.Counter, now: int, d: nat)
    requires SameKey(limit, millis * MILLISECOND, s, c, now)
    ensures AdmitsAfter(limit, millis, s, now, d) == C.AdmitsAfter(limit, millis * MILLISECOND, c, now, d)
  {
    hide Advance, C.Advance, SameKey;
    StepFollows(limit, millis, s, c, now, now + d);
  }
}

/** The sliding window log script: the log as a sorted set of members scored by
    the time they were admitted. */
module LogScript {
  import opened Arith
  import opened Wrappers
  import opened Limiter
  import opened Expiry
  import L = WindowLogs

  datatype Member = Member(score: int, id: int)

  /** A sorted set, in ascending order of score and then of id. */
  type SortedSet = seq<Member>

  function Scores(z: SortedSet): seq<int> {
    seq(|z|, i requires 0 <= i < |z| => z[i].score)
  }

  predicate Below(a: Member, b: Member) {
    a.score < b.score || (a.score == b.score && a.id < b.id)
  }

  /** ZREMRANGEBYSCORE -inf max, which includes max. */
  function RemoveUpTo(z: SortedSet, max: int): SortedSet {
    if z == [] then []
    else
      var n := |z| - 1;
      RemoveUpTo(z[..n], max) + (if z[n].score > max then [z[n]] else [])
  }

  function RemoveId(z: SortedSet, id: int): SortedSet {
    if z == [] then []
    else
      var n := |z| - 1;
      RemoveId(z[..n], id) + (if z[n].id != id then [z[n]] else [])
  }

  function Insert(z: SortedSet, m: Member): (r: SortedSet)
    ensures |r| == |z| + 1
  {
    if z == [] then [m]
    else
      var n := |z| - 1;
      if Below(m, z[n]) then Insert(z[..n], m) + [z[n]] else z + [m]
  }

  /** ZADD, which moves a member that is already present. */
  function Add(z: SortedSet, m: Member): (r: SortedSet)
    ensures r != []
  {
    Insert(RemoveId(z, m.id), m)
  }

  /** A call carries the clock reading and a member id meant to be unique. */
  datatype Request = Request(now: int, id: int)

  function Decide(limit: pos, length: pos, live: SortedSet, call: Request): (SortedSet, Result) {
    if |live| < limit then
      var added := Add(live, Member(call.now, call.id));
      (added, Result(true, limit, Max(0, limit - (|live| + 1)),
                     Max(0, added[|added| - 1].score + length - call.now), 0))
    else
      (live, Result(false, limit, Max(0, limit - |live|),
                    Max(0, live[|live| - 1].score + length - call.now),
                    Max(0, live[0].score + length - call.now)))
  }

  function Advance(limit: pos, millis: pos, z: SortedSet, call: Request): (SortedSet, Result) {
    var length := millis * MILLISECOND;
    Decide(limit, length, RemoveUpTo(z, call.now - length), call)
  }

  function Deadline(millis: pos, z: SortedSet, now: int): int {
    var length := millis * MILLISECOND;
    var resetAfter := if z == [] then length else Max(0, z[|z| - 1].score + length - now);
    (now / MILLISECOND + CeilDiv(resetAfter, MILLISECOND) + 1000) * MILLISECOND
  }

  predicate Ascending(z: SortedSet) {
    forall i, j :: 0 <= i < j < |z| ==> z[i].score <= z[j].score
  }

  function Spec(limit: pos, millis: pos): Script<SortedSet, Request> {
    Script(Algorithm((call: Request) => [],
                     (z: SortedSet, call: Request) => Advance(limit, millis, z, call)),
           (z: SortedSet) => Ascending(z),
           (call: Request) => call.now,
           (z: SortedSet, call: Request) => Deadline(millis, z, call.now))
  }

  class Redis {
    const limit: pos
    const millis: pos
    var keys: map<string, Stored<SortedSet>>

    constructor (limit: pos, millis: pos)
      ensures keys == map[] && this.limit == limit && this.millis == millis
    {
      this.limit, this.millis := limit, millis;
      keys := map[];
    }

    /** One evaluation of the script. */
    method Eval(key: string, call: Request) returns (res: Result)
      modifies `keys
      ensures var (stored, r) := Serve(Spec(limit, millis), Lookup(old(keys), key), call);
              keys == old(keys)[key := stored] && res == r
    {
      var length := millis * MILLISECOND;
      var members := if key in keys then keys[key].state else [];
      members := RemoveUpTo(members, call.now - length);
      var count := |members|;
      var allowed, retryAfter := false, 0;
      if count < limit {
        members := Add(members, Member(call.now, call.id));
        allowed := true;
        count := count + 1;
      } else if members != [] {
        retryAfter := members[0].score + length - call.now;
        if retryAfter < 0 {
          retryAfter := 0;
        }
      }
      var resetAfter := length;
      if members != [] {
        resetAfter := members[|members| - 1].score + length - call.now;
        if resetAfter < 0 {
          resetAfter := 0;
        }
      }
      var ttl := CeilDiv(resetAfter, MILLISECOND) + 1000;
      keys := keys[key := Stored(members, (call.now / MILLISECOND + ttl) * MILLISECOND)];
      var remaining := limit - count;
      if remaining < 0 {
        remaining := 0;
      }
      res := Result(allowed, limit, remaining, resetAfter, retryAfter);
    }

    /** Redis reclaims a key whose time to live has passed. */
    method Expire(key: string, now: int)
      modifies `keys
      ensures Lookup(keys, key) == Drop(Lookup(old(keys), key), now)
      ensures forall k :: k != key ==> Lookup(keys, k) == Lookup(old(keys), k)
    {
      if key in keys && now >= keys[key].deadline {
        keys := keys - {key};
      }
    }
  }

  // ---- Expiry ----

  lemma {:induction false} RemoveAll(z: SortedSet, max: int)
    requires forall i :: 0 <= i < |z| ==> z[i].score <= max
    ensures RemoveUpTo(z, max) == []
  {
    if z != [] {
      RemoveAll(z[..|z| - 1], max);
    }
  }

  /** What holds of every member. */
  ghost predicate All(z: SortedSet, p: Member -> bool) {
    forall i :: 0 <= i < |z| ==> p(z[i])
  }

  ghost predicate UpTo(z: SortedSet, score: int) {
    forall i :: 0 <= i < |z| ==> z[i].score <= score
  }

  /** Removing members keeps the order and whatever held of all of them. */
  lemma {:induction false} RemoveKeeps(z: SortedSet, max: int, p: Member -> bool)
    requires Ascending(z) && All(z, p)
    ensures var r := RemoveUpTo(z, max); Ascending(r) && All(r, p)
    ensures forall i :: 0 <= i < |RemoveUpTo(z, max)| ==> RemoveUpTo(z, max)[i].score > max
    ensures forall score :: UpTo(z, score) ==> UpTo(RemoveUpTo(z, max), score)
  {
    if z != [] {
      var n := |z| - 1;
      RemoveKeeps(z[..n], max, p);
      assert UpTo(z[..n], z[n].score);
      forall score | UpTo(z, score)
        ensures UpTo(RemoveUpTo(z, max), score)
      {
        assert UpTo(z[..n], score);
      }
    }
  }

  lemma {:induction false} RemoveIdKeeps(z: SortedSet, id: int)
    requires Ascending(z)
    ensures Ascending(RemoveId(z, id))
    ensures forall score :: UpTo(z, score) ==> UpTo(RemoveId(z, id), score)
  {
    if z != [] {
      var n := |z| - 1;
      RemoveIdKeeps(z[..n], id);
      assert UpTo(z[..n], z[n].score);
      forall score | UpTo(z, score)
        ensures UpTo(RemoveId(z, id), score)
      {
        assert UpTo(z[..n], score);
      }
    }
  }

  lemma {:induction false} InsertKeeps(z: SortedSet, m: Member, p: Member -> bool)
    requires Ascending(z) && All(z, p) && p(m)
    ensures Ascending(Insert(z, m)) && All(Insert(z, m), p)
    ensures forall score :: UpTo(z, score) && m.score <= score ==> UpTo(Insert(z, m), score)
  {
    if z != [] && Below(m, z[|z| - 1]) {
      var n := |z| - 1;
      InsertKeeps(z[..n], m, p);
      assert UpTo(z[..n], z[n].score);
      forall score | UpTo(z, score) && m.score <= score
        ensures UpTo(Insert(z, m), score)
      {
        assert UpTo(z[..n], score);
      }
    }
  }

  lemma AdvanceKeepsOrder(limit: pos, millis: pos, z: SortedSet, call: Request)
    requires Ascending(z)
    ensures Ascending(Advance(limit, millis, z, call).0)
    ensures Advance(limit, millis, z, call).0 != []
  {
    var live := RemoveUpTo(z, call.now - millis * MILLISECOND);
    RemoveKeeps(z, call.now - millis * MILLISECOND, m => true);
    RemoveIdKeeps(live, call.id);
    InsertKeeps(RemoveId(live, call.id), Member(call.now, call.id), m => true);
  }

  /** By its deadline every member has aged out of the window. */
  lemma SetFades(millis: pos, z: SortedSet, now: int, later: int)
    requires Ascending(z) && z != [] && later >= Deadline(millis, z, now)
    ensures RemoveUpTo(z, later - millis * MILLISECOND) == []
  {
    var length := millis * MILLISECOND;
    var reset := Max(0, z[|z| - 1].score + length - now);
    CeilDivLaw(reset, MILLISECOND, CeilDiv(reset, MILLISECOND));
    assert later >= now + reset;
    RemoveAll(z, later - length);
  }

  /** Redis may forget any log whose time to live has passed. */
  lemma SetsMayExpire(limit: pos, millis: pos)
    ensures OutlivesItsState(Spec(limit, millis))
  {
    var script := Spec(limit, millis);
    forall z: SortedSet, call: Request | script.sane(z)
      ensures StoresFading(script, z, call)
    {
      AdvanceKeepsOrder(limit, millis, z, call);
      var next := script.alg.advance(z, call).0;
      forall later: Request | later.now >= script.deadline(next, call)
        ensures script.alg.advance(next, later) == script.alg.advance(script.alg.unseen(later), later)
      {
        SetFades(millis, next, call.now, later.now);
      }
    }
  }

  /** And no key outlives the moment its log is empty by more than a second and a
      millisecond. */
  lemma SetKeysEnd(millis: pos, z: SortedSet, now: int, d: nat)
    requires z != [] && Ascending(z) && RemoveUpTo(z, now + d - millis * MILLISECOND) == []
    ensures Deadline(millis, z, now) <= now + d + SECOND + MILLISECOND
  {
    var length := millis * MILLISECOND;
    var n := |z| - 1;
    assert z[n].score <= now + d - length;
    var reset := Max(0, z[n].score + length - now);
    CeilDivLaw(reset, MILLISECOND, d / MILLISECOND + 1);
    EndsInTime(now, d, CeilDiv(reset, MILLISECOND));
  }

  /** So forgetting logs never changes an answer. */
  lemma ForgettingSetsIsUnobservable(limit: pos, millis: pos, events: seq<Event<Request>>)
    requires InOrder(Spec(limit, millis), events)
    ensures PlayExpiring(Spec(limit, millis), events).results == Play(Spec(limit, millis).alg, Requests(events)).results
  {
    SetsMayExpire(limit, millis);
    ExpiryIsUnobservable(Spec(limit, millis), events);
  }

  // ---- The script is the in-memory log ----

  lemma {:induction false} RemoveIsKeep(z: SortedSet, max: int)
    ensures Scores(RemoveUpTo(z, max)) == L.Keep(Scores(z), max)
  {
    if z != [] {
      var n := |z| - 1;
      RemoveIsKeep(z[..n], max);
      assert Scores(z)[..n] == Scores(z[..n]);
    }
  }

  lemma {:induction false} RemoveAbsent(z: SortedSet, id: int)
    requires forall i :: 0 <= i < |z| ==> z[i].id != id
    ensures RemoveId(z, id) == z
  {
    if z != [] {
      RemoveAbsent(z[..|z| - 1], id);
    }
  }

  /** A score no lower than any present goes last, wherever its id sorts. */
  lemma {:induction false} InsertLatest(z: SortedSet, m: Member)
    requires UpTo(z, m.score)
    ensures Scores(Insert(z, m)) == Scores(z) + [m.score]
  {
    if z != [] && Below(m, z[|z| - 1]) {
      var n := |z| - 1;
      InsertLatest(z[..n], m);
      assert Scores(Insert(z, m)) == Scores(Insert(z[..n], m)) + [z[n].score];
      assert Scores(z) == Scores(z[..n]) + [z[n].score];
    } else {
      assert Scores(z + [m]) == Scores(z) + [m.score];
    }
  }

  function Times(calls: seq<Request>): seq<int> {
    seq(|calls|, i requires 0 <= i < |calls| => calls[i].now)
  }

  ghost predicate DistinctIds(calls: seq<Request>) {
    forall i, j :: 0 <= i < j < |calls| ==> calls[i].id != calls[j].id
  }

  lemma {:induction false} EndsOfSorted(z: SortedSet)
    requires Ascending(z) && z != []
    ensures L.Oldest(Scores(z)) == z[0].score && L.Newest(Scores(z)) == z[|z| - 1].score
  {
    var ss := Scores(z);
    L.OldestIsLeast(ss);
    L.NewestIsGreatest(ss);
    assert ss[0] == z[0].score && ss[|z| - 1] == z[|z| - 1].score;
  }

  /** Inside the window the reported waits are the in-memory ones, unclamped. */
  lemma ReportsAlike(length: pos, z: SortedSet, now: int)
    requires Ascending(z) && z != [] && forall i :: 0 <= i < |z| ==> now - length < z[i].score <= now
    ensures Max(0, z[|z| - 1].score + length - now) == L.Clamp(length, L.Newest(Scores(z)) + length - now)
    ensures Max(0, z[0].score + length - now) == L.Clamp(length, L.Oldest(Scores(z)) + length - now)
  {
    EndsOfSorted(z);
  }

  /** A member put there by one of the calls. */
  ghost predicate From(calls: seq<Request>, m: Member) {
    exists i :: 0 <= i < |calls| && calls[i].id == m.id && calls[i].now == m.score
  }

  /** A set built by `calls`, to which `call` brings a new id and no earlier time. */
  ghost predicate Before(z: SortedSet, calls: seq<Request>, call: Request) {
    && Ascending(z) && UpTo(z, call.now)
    && All(z, m => From(calls, m) && m.id != call.id)
  }

  /** The part of it in the trailing window. */
  ghost predicate Live(length: pos, live: SortedSet, calls: seq<Request>, call: Request) {
    Before(live, calls, call) && forall i :: 0 <= i < |live| ==> live[i].score > call.now - length
  }

  lemma Prune(length: pos, z: SortedSet, calls: seq<Request>, call: Request)
    requires Before(z, calls, call)
    ensures var live := RemoveUpTo(z, call.now - length);
            Live(length, live, calls, call) && Scores(live) == L.Keep(Scores(z), call.now - length)
  {
    RemoveIsKeep(z, call.now - length);
    RemoveKeeps(z, call.now - length, m => From(calls, m) && m.id != call.id);
  }

  lemma AddedAlike(live: SortedSet, calls: seq<Request>, call: Request)
    requires Before(live, calls, call)
    ensures var added := Add(live, Member(call.now, call.id));
            && Scores(added) == Scores(live) + [call.now]
            && Ascending(added)
            && All(added, m => From(calls + [call], m))
  {
    RemoveAbsent(live, call.id);
    InsertLatest(live, Member(call.now, call.id));
    FromMore(live, calls, call);
    assert From(calls + [call], Member(call.now, call.id)) by {
      assert (calls + [call])[|calls|] == call;
    }
    InsertKeeps(live, Member(call.now, call.id), m => From(calls + [call], m));
  }

  lemma FromMore(z: SortedSet, calls: seq<Request>, call: Request)
    requires All(z, m => From(calls, m) && m.id != call.id)
    ensures All(z, m => From(calls + [call], m))
  {
    var more := calls + [call];
    forall k | 0 <= k < |z|
      ensures From(more, z[k])
    {
      var i :| 0 <= i < |calls| && calls[i].id == z[k].id && calls[i].now == z[k].score;
      assert more[i] == calls[i];
    }
  }

  lemma DecidesAlike(limit: pos, length: pos, live: SortedSet, calls: seq<Request>, call: Request)
    requires Live(length, live, calls, call)
    ensures var (next, r) := Decide(limit, length, live, call);
            && (Scores(next), r) == L.Decide(limit, length, Scores(live), call.now)
            && Ascending(next) && All(next, m => From(calls + [call], m))
  {
    hide Add, L.Oldest, L.Newest, From;
    if |live| < limit {
      AddedAlike(live, calls, call);
      AddedInWindow(length, live, calls, call);
      ReportsAlike(length, Add(live, Member(call.now, call.id)), call.now);
    } else {
      FromMore(live, calls, call);
      ReportsAlike(length, live, call.now);
    }
  }

  lemma AddedInWindow(length: pos, live: SortedSet, calls: seq<Request>, call: Request)
    requires Live(length, live, calls, call)
    ensures var added := Add(live, Member(call.now, call.id));
            forall i :: 0 <= i < |added| ==> call.now - length < added[i].score <= call.now
  {
    hide Add, Ascending, From;
    AddedAlike(live, calls, call);
    var added := Add(live, Member(call.now, call.id));
    forall i | 0 <= i < |added|
      ensures call.now - length < added[i].score <= call.now
    {
      assert Scores(added)[i] == (Scores(live) + [call.now])[i];
    }
  }

  /** One call, with an id the set does not hold and a clock reading no earlier
      than any score. */
  lemma AdvancesAlike(limit: pos, millis: pos, z: SortedSet, calls: seq<Request>, call: Request)
    requires Before(z, calls, call)
    ensures var (next, r) := Advance(limit, millis, z, call);
            && (Scores(next), r) == L.Advance(limit, millis * MILLISECOND, Scores(z), call.now)
            && Ascending(next) && All(next, m => From(calls + [call], m))
  {
    hide Decide, L.Decide, Ascending, RemoveUpTo, L.Keep;
    var length: pos := millis * MILLISECOND;
    Prune(length, z, calls, call);
    DecidesAlike(limit, length, RemoveUpTo(z, call.now - length), calls, call);
  }

  /** Script and log have given the same answers and hold the same timestamps. */
  ghost predicate AlikeSoFar(limit: pos, millis: pos, calls: seq<Request>) {
    AlikeTraces(Play(Spec(limit, millis).alg, calls), Play(L.Spec(limit, millis * MILLISECOND), Times(calls)), calls)
  }

  ghost predicate AlikeTraces(script: Trace<SortedSet>, log: Trace<seq<int>>, calls: seq<Request>) {
    && script.results == log.results
    && (calls == [] <==> script.state.None?) && (calls == [] <==> log.state.None?)
    && (calls != [] ==>
          && Scores(script.state.value) == log.state.value
          && Ascending(script.state.value)
          && All(script.state.value, m => From(calls, m)))
  }

  /** With unique ids and a clock that never goes back, the sorted set holds the
      very timestamps the in-memory log holds, and gives the very same answers. */
  lemma {:induction false} ScriptIsLog(limit: pos, millis: pos, calls: seq<Request>)
    requires NonDecreasing(Times(calls)) && DistinctIds(calls)
    ensures AlikeSoFar(limit, millis, calls)
  {
    hide Play, AlikeSoFar, Times, DistinctIds, NonDecreasing;
    AlikeAtFirst(limit, millis);
    if calls != [] {
      var n := |calls| - 1;
      var past, call := calls[..n], calls[n];
      assert calls == past + [call];
      TimesStayInOrder(past, call);
      ScriptIsLog(limit, millis, past);
      PlaySnoc(Spec(limit, millis).alg, past, call);
      PlaySnoc(L.Spec(limit, millis * MILLISECOND), Times(past), call.now);
      StaysAlike(limit, millis, past, call);
    }
  }

  lemma AlikeAtFirst(limit: pos, millis: pos)
    ensures AlikeSoFar(limit, millis, [])
  {
    assert Times([]) == [];
  }

  lemma StaysAlike(limit: pos, millis: pos, past: seq<Request>, call: Request)
    requires NonDecreasing(Times(past + [call])) && DistinctIds(past + [call]) && AlikeSoFar(limit, millis, past)
    requires Times(past + [call]) == Times(past) + [call.now]
    requires Play(Spec(limit, millis).alg, past + [call]) == Next(Spec(limit, millis).alg, past, call)
    requires var log := L.Spec(limit, millis * MILLISECOND);
             Play(log, Times(past) + [call.now]) == Next(log, Times(past), call.now)
    ensures AlikeSoFar(limit, millis, past + [call])
  {
    hide Advance, L.Advance, Ascending, All, From, Before, Times, DistinctIds, NonDecreasing, Play;
    NothingStored();
    var script := Play(Spec(limit, millis).alg, past);
    var z := if past == [] then [] else script.state.value;
    EarlierMembers(z, past, call);
    AdvancesAlike(limit, millis, z, past, call);
  }

  lemma NothingStored()
    ensures Scores([]) == [] && Ascending([]) && forall p :: All([], p)
  {
  }

  ghost function Next<S, In>(alg: Algorithm<S, In>, past: seq<In>, call: In): Trace<S> {
    var before := Play(alg, past);
    var (s, r) := Call(alg, before.state, call);
    Trace(Some(s), before.results + [r])
  }

  lemma TimesStayInOrder(past: seq<Request>, call: Request)
    requires NonDecreasing(Times(past + [call])) && DistinctIds(past + [call])
    ensures NonDecreasing(Times(past)) && DistinctIds(past)
    ensures Times(past + [call]) == Times(past) + [call.now]
  {
    var all := past + [call];
    forall i, j | 0 <= i <= j < |past|
      ensures Times(past)[i] <= Times(past)[j]
    {
      assert Times(all)[i] <= Times(all)[j];
    }
    forall i, j | 0 <= i < j < |past|
      ensures past[i].id != past[j].id
    {
      assert all[i].id != all[j].id;
    }
  }

  lemma EarlierMembers(z: SortedSet, past: seq<Request>, call: Request)
    requires NonDecreasing(Times(past + [call])) && DistinctIds(past + [call])
    requires Ascending(z) && All(z, m => From(past, m))
    ensures Before(z, past, call)
  {
    var all := past + [call];
    forall k | 0 <= k < |z|
      ensures From(past, z[k]) && z[k].id != call.id && z[k].score <= call.now
    {
      assert From(past, z[k]);
      var i :| 0 <= i < |past| && past[i].id == z[k].id && past[i].now == z[k].score;
      assert Times(all)[i] <= Times(all)[|past|] && all[i] == past[i] && all[|past|] == call;
    }
  }

  /** A call of the script d after the last one at `now`, with nothing in between
      and any member id, is admitted. */
  predicate AdmitsAfter(limit: pos, millis: pos, z: SortedSet, now: int, id: int, d: nat) {
    Advance(limit, millis, z, Request.Request(now + d, id)).1.allowed
  }

  /** After a denial the script's wait is exactly the least sufficient one. */
  lemma {:induction false} ScriptRetryIsLeast(limit: pos, millis: pos, calls: seq<Request>, id: int)
    requires calls != [] && NonDecreasing(Times(calls)) && DistinctIds(calls)
    requires !Play(Spec(limit, millis).alg, calls).results[|calls| - 1].allowed
    ensures var t, now := Play(Spec(limit, millis).alg, calls), calls[|calls| - 1].now;
            forall d: nat ::
              AdmitsAfter(limit, millis, t.state.value, now, id, d) <==> t.results[|calls| - 1].retryAfter <= d
  {
    hide Advance, L.Advance, Ascending, All, AdmitsAfter, L.AdmitsAfter;
    ScriptIsLog(limit, millis, calls);
    L.RetryAfterIsLeast(limit, millis * MILLISECOND, Times(calls));
    var z := Play(Spec(limit, millis).alg, calls).state.value;
    var now := calls[|calls| - 1].now;
    assert Times(calls)[|calls| - 1] == now;
    forall d: nat
      ensures AdmitsAfter(limit, millis, z, now, id, d) == L.AdmitsAfter(limit, millis * MILLISECOND, Scores(z), now, d)
    {
      AdmitsAlike(limit, millis, z, now, id, d);
    }
  }

  lemma AdmitsAlike(limit: pos, millis: pos, z: SortedSet, now: int, id: int, d: nat)
    ensures AdmitsAfter(limit, millis, z, now, id, d) ==
            L.AdmitsAfter(limit, millis * MILLISECOND, Scores(z), now, d)
  {
    hide RemoveUpTo, L.Keep;
    RemoveIsKeep(z, now + d - millis * MILLISECOND);
  }

  /** Remaining is exactly the number of further requests that one instant admits,
      whatever new member ids they carry. */
  lemma {:induction false} ScriptRemainingIsExact(limit: pos, millis: pos, earlier: seq<Request>, call: Request,
                                                  later: seq<Request>, i: nat)
    requires var all := earlier + [call] + later; NonDecreasing(Times(all)) && DistinctIds(all)
    requires i < |later| && forall k :: 0 <= k < |later| ==> later[k].now == call.now
    ensures var alg := Spec(limit, millis).alg;
            Play(alg, earlier + [call] + later).results[|earlier| + 1 + i].allowed <==>
            i < Play(alg, earlier + [call]).results[|earlier|].remaining
  {
    hide L.Advance, Advance, NonDecreasing, DistinctIds, Play;
    var alg, log := Spec(limit, millis).alg, L.Spec(limit, millis * MILLISECOND);
    var first, all := earlier + [call], earlier + [call] + later;
    ScriptIsLog(limit, millis, all);
    PlayPrefix(alg, all, |first|);
    PlayPrefix(log, Times(all), |first|);
    assert all[..|first|] == first && Times(all)[..|first|] == Times(earlier) + [call.now];
    assert Times(all) == Times(earlier) + [call.now] + Times(later);
    L.RemainingExact(limit, millis * MILLISECOND);
    RemainingHoldsOnKey(log, Times(earlier), call.now, Times(later), i);
    PlaySnoc(log, Times(earlier), call.now);
    var results := Play(alg, all).results;
    assert results == Play(log, Times(all)).results;
    assert results[..|first|][|earlier|] == results[|earlier|];
  }
}
