/** The sliding window counter: two fixed-window counts stand for the trailing
    window, the previous one weighted by how much of it still overlaps. All
    fractions are multiplied out by the window length. */
module WindowCounters {
  import opened Arith
  import opened Wrappers
  import opened Limiter
  import opened Counting

  datatype Counter = Counter(start: int, curr: nat, prev: nat)

  /** Where a key's fixed windows are anchored: in memory at the key's first
      request, in Redis on the grid of multiples of the window. */
  datatype Anchor = FirstRequest | Grid

  function Origin(window: pos, anchor: Anchor, now: int): int {
    match anchor
    case FirstRequest => now
    case Grid => now / window * window
  }

  function Roll(window: pos, c: Counter, now: int): Counter {
    var elapsed := now - c.start;
    if elapsed < 0 then c.(start := now)
    else if elapsed < window then c
    else if elapsed < 2 * window then Counter(c.start + window, 0, c.curr)
    else Counter(c.start + elapsed / window * window, 0, 0)
  }

  /** The estimated count over the trailing window, times the window. */
  function Load(window: pos, c: Counter, now: int): int {
    c.prev * (window - (now - c.start)) + c.curr * window
  }

  predicate Fits(limit: pos, window: pos, c: Counter, now: int) {
    Load(window, c, now) + window <= limit * window
  }

  function RetryAfter(limit: pos, window: pos, c: Counter, elapsed: int): int {
    var remainder := window - elapsed;
    if c.prev == 0 then
      if c.curr == 0 then remainder
      else
        var over := c.curr - limit + 1;
        if over < 0 then remainder
        else remainder + CeilDiv(over * window, c.curr)
    else
      var target := limit - 1 - c.curr;
      if target < 0 then remainder
      else if target == 0 then remainder
      else
        var wait := CeilDiv((c.prev - target) * window, c.prev) - elapsed;
        if wait <= 0 then MILLISECOND
        else if wait > remainder then remainder
        else wait
  }

  function Advance(limit: pos, window: pos, c: Counter, now: int): (Counter, Result) {
    var rolled := Roll(window, c, now);
    var elapsed := now - rolled.start;
    if Fits(limit, window, rolled, now) then
      (rolled.(curr := rolled.curr + 1),
       Result(true, limit, (limit * window - (Load(window, rolled, now) + window)) / window, window - elapsed, 0))
    else
      (rolled,
       Result(false, limit, 0, window - elapsed, RetryAfter(limit, window, rolled, elapsed)))
  }

  function Spec(limit: pos, window: pos, anchor: Anchor): Algorithm<Counter, int> {
    Algorithm((now: int) => Counter(Origin(window, anchor, now), 0, 0),
              (c: Counter, now: int) => Advance(limit, window, c, now))
  }

  // ---- The limiter itself ----

  class CounterState {
    var windowStart: int
    var curr: nat
    var prev: nat

    constructor (windowStart: int)
      ensures Value() == Counter(windowStart, 0, 0)
    {
      this.windowStart := windowStart;
      curr, prev := 0, 0;
    }

    function Value(): Counter
      reads this
    {
      Counter(windowStart, curr, prev)
    }
  }

  class SlidingWindowCounter {
    const limit: pos
    const window: pos
    var windows: map<string, CounterState>

    constructor (limit: pos, window: pos)
      ensures Valid() && View() == map[]
      ensures this.limit == limit && this.window == window
    {
      this.limit, this.window := limit, window;
      windows := map[];
    }

    static method New(limit: int, window: int) returns (s: Option<SlidingWindowCounter>)
      ensures s.None? <==> limit <= 0 || window <= 0
      ensures s.Some? ==> fresh(s.value) && s.value.Valid() && s.value.View() == map[]
      ensures s.Some? ==> s.value.limit == limit && s.value.window == window
    {
      if limit <= 0 || window <= 0 {
        return None;
      }
      var made := new SlidingWindowCounter(limit, window);
      return Some(made);
    }

    /** No two keys share a counter. */
    ghost predicate Valid()
      reads this
    {
      forall k, k' :: k in windows && k' in windows && k != k' ==> windows[k] != windows[k']
    }

    function View(): map<string, Counter>
      reads this, set k | k in windows :: windows[k]
    {
      map k | k in windows :: windows[k].Value()
    }

    /** Charges one request to the key if the weighted estimate permits it. */
    method Allow(key: string, now: int) returns (res: Result)
      requires Valid()
      modifies `windows, if key in windows then {windows[key]} else {}
      ensures Valid()
      ensures var (c, r) := Call(Spec(limit, window, FirstRequest), Lookup(old(View()), key), now);
              View() == old(View())[key := c] && res == r
    {
      hide Advance;
      var st: CounterState;
      if key !in windows {
        st := new CounterState(now);
        windows := windows[key := st];
      } else {
        st := windows[key];
      }
      res := Charge(st, now);
    }

    method Charge(st: CounterState, now: int) returns (res: Result)
      modifies st
      ensures (st.Value(), res) == Advance(limit, window, old(st.Value()), now)
    {
      hide Roll, RetryAfter;
      RollTo(st, now);
      ghost var rolled := st.Value();
      var elapsed := now - st.windowStart;
      var load := st.prev * (window - elapsed) + st.curr * window;
      assert load == Load(window, rolled, now);
      var allowed, remaining, retryAfter := false, 0, 0;
      if load + window <= limit * window {
        st.curr := st.curr + 1;
        allowed := true;
        var room := limit * window - (load + window);
        if room > 0 {
          remaining := room / window;
        }
      } else {
        retryAfter := RetryAfter(limit, window, st.Value(), elapsed);
      }
      res := Result(allowed, limit, remaining, window - elapsed, retryAfter);
    }

    /** Advances the key's fixed windows to cover now. */
    method RollTo(st: CounterState, now: int)
      modifies st
      ensures st.Value() == Roll(window, old(st.Value()), now)
    {
      var elapsed := now - st.windowStart;
      if elapsed < 0 {
        st.windowStart := now;
      } else if elapsed < window {
      } else if elapsed < 2 * window {
        st.prev := st.curr;
        st.curr := 0;
        st.windowStart := st.windowStart + window;
      } else {
        var skipped := elapsed / window;
        st.prev := 0;
        st.curr := 0;
        st.windowStart := st.windowStart + skipped * window;
      }
    }
  }

  // ---- Rolling ----

  lemma RollCovers(window: pos, c: Counter, now: int)
    ensures var r := Roll(window, c, now); r.start <= now < r.start + window
  {
  }

  /** Rolling, told by how many windows have gone by. */
  function Shift(window: pos, c: Counter, k: nat): Counter {
    if k == 0 then c else Counter(c.start + k * window, 0, if k == 1 then c.curr else 0)
  }

  function WindowsGone(window: pos, c: Counter, now: int): (k: nat)
    requires c.start <= now
    ensures c.start + k * window <= now < c.start + k * window + window
  {
    FloorDivLaw(now - c.start, window, 0);
    (now - c.start) / window
  }

  lemma RollIsShift(window: pos, c: Counter, now: int)
    requires c.start <= now
    ensures Roll(window, c, now) == Shift(window, c, WindowsGone(window, c, now))
  {
    SmallQuotients(now - c.start, window);
  }

  lemma ShiftTwice(window: pos, c: Counter, k1: nat, k2: nat)
    ensures Shift(window, Shift(window, c, k1), k2) == Shift(window, c, k1 + k2)
  {
    assert (k1 + k2) * window == k1 * window + k2 * window;
  }

  /** Looking at a key in between changes nothing: rolling in two steps is
      rolling once. */
  lemma RollTwice(window: pos, c: Counter, t1: int, t2: int)
    requires c.start <= t1 <= t2
    ensures Roll(window, Roll(window, c, t1), t2) == Roll(window, c, t2)
  {
    var k1, k2 := WindowsGone(window, c, t1), WindowsGone(window, c, t2);
    FloorDivLaw(t2 - c.start, window, k1);
    RollIsShift(window, c, t1);
    RollIsShift(window, c, t2);
    var r := Shift(window, c, k1);
    assert r.start == c.start + k1 * window;
    RollIsShift(window, r, t2);
    ShiftedQuotient(t2 - c.start, window, k1);
    assert WindowsGone(window, r, t2) == k2 - k1;
    ShiftTwice(window, c, k1, k2 - k1);
  }

  lemma ShiftedQuotient(a: int, b: int, k: int)
    requires b > 0
    ensures (a - k * b) / b == a / b - k
  {
    var q := a / b - k;
    assert q * b == a / b * b - k * b;
    FloorDivLaw(a - k * b, b, q);
    FloorDivLaw(a - k * b, b, q + 1);
    assert (q + 1) * b == q * b + b;
  }

  lemma SmallQuotients(a: int, b: int)
    requires a >= 0 && b > 0
    ensures a < b <==> a / b == 0
    ensures b <= a < 2 * b <==> a / b == 1
    ensures a / b == 1 ==> a / b * b == b
  {
    FloorDivLaw(a, b, 1);
    FloorDivLaw(a, b, 2);
    FloorDivLaw(a, b, 0);
  }

  /** In silence the estimate never rises, across any number of rollovers. */
  lemma LoadFallsInSilence(window: pos, c: Counter, t1: int, t2: int)
    requires c.start <= t1 <= t2
    ensures Load(window, Roll(window, c, t2), t2) <= Load(window, Roll(window, c, t1), t1)
  {
    RollTwice(window, c, t1, t2);
    var a := Roll(window, c, t1);
    RollCovers(window, c, t1);
    var b := Roll(window, a, t2);
    RollCovers(window, a, t2);
    var e1, e2 := t1 - a.start, t2 - b.start;
    if b == a {
      MulMono(window - e2, window - e1, a.prev);
    } else if t2 - a.start < 2 * window {
      MulMono(window - e2, window, a.curr);
      MulMono(0, window - e1, a.prev);
    } else {
      MulMono(0, window - e1, a.prev);
      MulMono(0, window, a.curr);
    }
  }

  // ---- Every answer ----

  /** Under any clock, every answer is as the interface promises, and its reset lies in
      the window. */
  lemma AnswerIsWellFormed(limit: pos, window: pos, c: Counter, now: int)
    ensures var r := Advance(limit, window, c, now).1;
            WellFormed(r, limit) && 0 < r.resetAfter <= window
  {
    hide Roll;
    RollCovers(window, c, now);
    var rolled := Roll(window, c, now);
    var elapsed := now - rolled.start;
    MulMono(0, rolled.prev, window - elapsed);
    MulMono(0, rolled.curr, window);
    var room := limit * window - (Load(window, rolled, now) + window);
    FloorDivLaw(room, window, 0);
    FloorDivLaw(room, window, limit as int);
    RetryIsNatural(limit, window, rolled, elapsed);
    hide RetryAfter, Load;
  }

  lemma RetryIsNatural(limit: pos, window: pos, c: Counter, elapsed: int)
    requires 0 <= elapsed < window
    ensures RetryAfter(limit, window, c, elapsed) >= 0
  {
    if c.prev == 0 && c.curr > 0 && c.curr - limit + 1 >= 0 {
      MulMono(0, c.curr - limit + 1, window);
      CeilDivLaw((c.curr - limit + 1) * window, c.curr, -1);
    }
  }

  /** A clock that jumps back never makes room: the estimate is then no lower than it
      was at any time in the window the key was in. */
  lemma JumpingBackMakesNoRoom(window: pos, c: Counter, before: int, now: int)
    requires now < c.start <= before < c.start + window
    ensures Load(window, Roll(window, c, now), now) >= Load(window, c, before)
  {
    MulMono(window - (before - c.start), window, c.prev);
  }

  // ---- Polling ----

  lemma SilentDenials(limit: pos, window: pos, anchor: Anchor)
    ensures DenialsAreSilent(Spec(limit, window, anchor), (c: Counter, last: int) => c.start <= last)
  {
    hide Advance, Roll;
    var alg, sane := Spec(limit, window, anchor), (c: Counter, last: int) => c.start <= last;
    forall now
      ensures sane(alg.unseen(now), now) && alg.advance(alg.unseen(now), now).1.allowed
    {
      FreshAdmits(limit, window, anchor, now);
    }
    forall c: Counter, last: int, now: int | sane(c, last) && last <= now
      ensures SilentAt(alg, sane, c, now)
    {
      RollsOnDenial(limit, window, c, now);
      forall later | now <= later && !Advance(limit, window, c, now).1.allowed
        ensures Advance(limit, window, Roll(window, c, now), later) == Advance(limit, window, c, later)
      {
        RolledAnswersAlike(limit, window, c, now, later);
      }
    }
  }

  lemma FreshAdmits(limit: pos, window: pos, anchor: Anchor, now: int)
    ensures Origin(window, anchor, now) <= now
    ensures Advance(limit, window, Counter(Origin(window, anchor, now), 0, 0), now).1.allowed
  {
    FloorDivLaw(now, window, now / window);
    MulMono(1, limit as int, window);
    RollCovers(window, Counter(Origin(window, anchor, now), 0, 0), now);
  }

  lemma RollsOnDenial(limit: pos, window: pos, c: Counter, now: int)
    requires c.start <= now
    ensures Advance(limit, window, c, now).0.start <= now
    ensures !Advance(limit, window, c, now).1.allowed ==> Advance(limit, window, c, now).0 == Roll(window, c, now)
  {
    RollCovers(window, c, now);
  }

  lemma RolledAnswersAlike(limit: pos, window: pos, c: Counter, now: int, later: int)
    requires c.start <= now <= later
    ensures Advance(limit, window, Roll(window, c, now), later) == Advance(limit, window, c, later)
  {
    hide Roll, RetryAfter;
    RollTwice(window, c, now, later);
  }

  /** Polling is harmless: leaving denied calls out of a run changes no other answer. */
  lemma PollingIsHarmless(limit: pos, window: pos, anchor: Anchor, ts: seq<int>, keep: seq<bool>)
    requires NonDecreasing(ts) && DropsDenials(Play(Spec(limit, window, anchor), ts).results, keep)
    ensures Play(Spec(limit, window, anchor), Kept(ts, keep)).results ==
            Kept(Play(Spec(limit, window, anchor), ts).results, keep)
  {
    SilentDenials(limit, window, anchor);
    var _ := DenialsLeaveNoTrace(Spec(limit, window, anchor), (c: Counter, last: int) => c.start <= last, ts, keep);
  }

  // ---- Remaining ----

  lemma LoadAfterCharge(window: pos, c: Counter, now: int)
    ensures Load(window, c.(curr := c.curr + 1), now) == Load(window, c, now) + window
  {
    assert (c.curr + 1) * window == c.curr * window + window;
  }

  lemma {:induction false} AgainFrom(limit: pos, window: pos, c: Counter, now: int, n: nat)
    requires c.start <= now < c.start + window
    ensures Again(Spec(limit, window, FirstRequest), c, now, n).allowed <==>
            Load(window, c, now) + window + n * window <= limit * window
    decreases n
  {
    if n > 0 {
      var (next, r) := Advance(limit, window, c, now);
      AgainFrom(limit, window, next, now, n - 1);
      assert n * window == (n - 1) * window + window;
      LoadAfterCharge(window, c, now);
      MulMono(0, n - 1, window);
    }
  }

  lemma {:induction false} AgainIgnoresAnchor(limit: pos, window: pos, anchor: Anchor, c: Counter, now: int, n: nat)
    ensures Again(Spec(limit, window, anchor), c, now, n) == Again(Spec(limit, window, FirstRequest), c, now, n)
    decreases n
  {
    if n > 0 {
      AgainIgnoresAnchor(limit, window, anchor, Advance(limit, window, c, now).0, now, n - 1);
    }
  }

  /** Remaining is exactly the number of further requests that one instant admits. */
  lemma RemainingExact(limit: pos, window: pos, anchor: Anchor)
    ensures RemainingIsExact(Spec(limit, window, anchor))
  {
    var alg := Spec(limit, window, anchor);
    forall c: Counter, now: int
      ensures RemainingIsExactAt(alg, c, now)
    {
      var (next, r) := alg.advance(c, now);
      RollCovers(window, c, now);
      var rolled := Roll(window, c, now);
      var load := Load(window, rolled, now);
      forall n: nat
        ensures Again(alg, next, now, n).allowed <==> n < r.remaining
      {
        AgainIgnoresAnchor(limit, window, anchor, next, now, n);
        AgainFrom(limit, window, next, now, n);
        assert (n + 1) * window == n * window + window;
        LoadAfterCharge(window, rolled, now);
        FloorDivLaw(limit * window - (load + window), window, n + 1);
        if !r.allowed {
          MulMono(1, n + 1, window);
        }
      }
    }
  }

  // ---- Two counts stand for the whole history ----

  /** The start of the fixed window that holds t, windows being laid from base. */
  function WindowOf(window: pos, base: int, t: int): int {
    base + (t - base) / window * window
  }

  /** A window start k windows after another is the window of every time in it. */
  lemma WindowOfIsUnique(window: pos, base: int, t: int, k: int, t': int)
    requires var start := WindowOf(window, base, t) + k * window; start <= t' < start + window
    ensures WindowOf(window, base, t') == WindowOf(window, base, t) + k * window
  {
    var q := (t - base) / window + k;
    assert q * window == (t - base) / window * window + k * window;
    assert (q + 1) * window == q * window + window;
    FloorDivLaw(t' - base, window, q);
    FloorDivLaw(t' - base, window, q + 1);
  }

  /** The two counts are the true admission counts of the current fixed window
      and the one before it, out of the full history `h`. */
  ghost predicate Tracks(window: pos, base: int, c: Counter, h: seq<int>, now: int) {
    && c.start == WindowOf(window, base, now)
    && c.start <= now < c.start + window
    && c.curr == Count(h, c.start, c.start + window)
    && c.prev == Count(h, c.start - window, c.start)
    && UpTo(h, now)
  }

  /** What every reachable counter satisfies. A non-empty previous window keeps
      the current one strictly below the limit. */
  predicate Sane(limit: pos, c: Counter) {
    c.curr <= limit && c.prev <= limit && (c.prev > 0 ==> c.curr < limit)
  }

  lemma RollTracks(window: pos, base: int, c: Counter, h: seq<int>, last: int, now: int)
    requires Tracks(window, base, c, h, last) && last <= now
    ensures Tracks(window, base, Roll(window, c, now), h, now)
  {
    var k := WindowsGone(window, c, now);
    RollIsShift(window, c, now);
    WindowOfIsUnique(window, base, last, k, now);
    var r := Shift(window, c, k);
    if k > 0 {
      CountNone(h, last, r.start, r.start + window);
      if k > 1 {
        MulMono(2, k, window);
        CountNone(h, last, r.start - window, r.start);
      }
    }
  }

  lemma RollStaysSane(limit: pos, window: pos, c: Counter, now: int)
    requires Sane(limit, c)
    ensures Sane(limit, Roll(window, c, now))
  {
  }

  lemma ChargeTracks(limit: pos, window: pos, base: int, c: Counter, h: seq<int>, now: int)
    requires Tracks(window, base, c, h, now) && Sane(limit, c)
    requires Fits(limit, window, c, now)
    ensures Tracks(window, base, c.(curr := c.curr + 1), h + [now], now)
    ensures Sane(limit, c.(curr := c.curr + 1))
  {
    CountSnoc(h, now, c.start, c.start + window);
    CountSnoc(h, now, c.start - window, c.start);
    RoomInWindow(limit, window, c.prev, c.curr, now - c.start);
  }

  lemma RoomInWindow(limit: nat, window: nat, prev: nat, curr: nat, e: int)
    requires 0 <= e < window
    requires prev * (window - e) + curr * window + window <= limit * window
    ensures curr + 1 <= limit && (prev > 0 ==> curr + 1 < limit)
  {
    MulMono(0, prev, window - e);
    assert (curr + 1) * window == curr * window + window;
    if curr + 1 > limit {
      MulMonoStrict(limit, curr + 1, window);
    }
    if prev > 0 {
      MulMono(1, prev, window - e);
    }
  }

  /** One call keeps the counts exact. */
  lemma AdvanceTracks(limit: pos, window: pos, base: int, c: Counter, h: seq<int>, last: int, now: int)
    requires Tracks(window, base, c, h, last) && Sane(limit, c) && last <= now
    ensures var rolled := Roll(window, c, now);
            Tracks(window, base, rolled, h, now) && Sane(limit, rolled)
    ensures var (next, r) := Advance(limit, window, c, now);
            Tracks(window, base, next, Extend(h, now, r), now) && Sane(limit, next)
  {
    RollTracks(window, base, c, h, last, now);
    var rolled := Roll(window, c, now);
    if Fits(limit, window, rolled, now) {
      ChargeTracks(limit, window, base, rolled, h, now);
    }
  }

  ghost predicate Exact(limit: pos, window: pos, base: int, c: Counter, h: seq<int>, last: int) {
    Tracks(window, base, c, h, last) && Sane(limit, c)
  }

  lemma ExactIsPreserved(limit: pos, window: pos, anchor: Anchor, base: int)
    ensures Preserves(Spec(limit, window, anchor), (c, h, last) => Exact(limit, window, base, c, h, last))
  {
    var alg := Spec(limit, window, anchor);
    var inv := (c, h, last) => Exact(limit, window, base, c, h, last);
    forall c: Counter, h: seq<int>, last: int, now: int | inv(c, h, last) && last <= now
      ensures HoldsAfter(alg, inv, c, h, now)
    {
      AdvanceTracks(limit, window, base, c, h, last, now);
    }
  }

  /** Where a run's windows are laid from: the anchor of its first call. */
  function Base(window: pos, anchor: Anchor, ts: seq<int>): int
    requires ts != []
  {
    Origin(window, anchor, ts[0])
  }

  lemma UnseenIsExact(limit: pos, window: pos, anchor: Anchor, now: int)
    ensures Exact(limit, window, Origin(window, anchor, now), Spec(limit, window, anchor).unseen(now), [], now)
  {
    var origin := Origin(window, anchor, now);
    FloorDivLaw(now, window, now / window);
    FloorDivLaw(now, window, now / window + 1);
    assert (now / window + 1) * window == now / window * window + window;
    assert WindowOf(window, origin, origin) == origin;
    WindowOfIsUnique(window, origin, origin, 0, now);
  }

  function History(limit: pos, window: pos, anchor: Anchor, ts: seq<int>): seq<int> {
    Admissions(ts, Play(Spec(limit, window, anchor), ts).results)
  }

  /** After any run the two stored counts are the true admission counts of the
      current fixed window and its predecessor. */
  lemma CountsAreExact(limit: pos, window: pos, anchor: Anchor, ts: seq<int>)
    requires ts != [] && NonDecreasing(ts)
    ensures Exact(limit, window, Base(window, anchor, ts), Play(Spec(limit, window, anchor), ts).state.value,
                  History(limit, window, anchor, ts), ts[|ts| - 1])
  {
    var base := Base(window, anchor, ts);
    UnseenIsExact(limit, window, anchor, ts[0]);
    ExactIsPreserved(limit, window, anchor, base);
    var _, _, _ := LastCall(Spec(limit, window, anchor), (c, h, last) => Exact(limit, window, base, c, h, last), ts);
  }

  // ---- Retry-After ----

  /** A call d after the last one at `now`, with nothing in between, is admitted. */
  predicate AdmitsAfter(limit: pos, window: pos, c: Counter, now: int, d: nat) {
    Advance(limit, window, c, now + d).1.allowed
  }

  /** The least wait after a denial: with no previous window it lies in the next
      one, otherwise it is where the previous window has decayed enough. */
  function LeastWait(limit: pos, window: pos, c: Counter, elapsed: int): int {
    if c.prev == 0 then window - elapsed + CeilDiv(window, limit)
    else CeilDiv((c.prev + c.curr + 1 - limit) * window, c.prev) - elapsed
  }

  /** A counter that has just denied a request. */
  ghost predicate Denied(limit: pos, window: pos, c: Counter, now: int) {
    && Sane(limit, c)
    && c.start <= now < c.start + window
    && !Fits(limit, window, c, now)
  }

  /** On a reachable denial the branches for an overfull current window, an empty
      key, a wait of nothing and a wait past the rollover are all dead. The one for
      a previous window that must decay completely is taken when the current one is
      a single request short of the limit, and is exact there. */
  lemma RetryBranches(limit: pos, window: pos, c: Counter, now: int)
    requires Denied(limit, window, c, now)
    ensures var elapsed := now - c.start;
            && RetryAfter(limit, window, c, elapsed) == LeastWait(limit, window, c, elapsed)
            && (c.prev == 0 ==> c.curr == limit)
            && (c.prev > 0 && c.curr == limit - 1 ==> LeastWait(limit, window, c, elapsed) == window - elapsed)
            && (c.prev > 0 ==>
                  && limit - 1 - c.curr >= 0
                  && 0 < CeilDiv((c.prev + c.curr + 1 - limit) * window, c.prev) - elapsed <= window - elapsed)
  {
    var elapsed := now - c.start;
    if c.prev == 0 {
      CurrentIsFull(limit, window, c, now);
    } else {
      var over := c.prev + c.curr + 1 - limit;
      OverloadLaw(limit, window, c, elapsed);
      CeilDivLaw(over * window, c.prev, elapsed);
      CeilDivLaw(over * window, c.prev, window as int);
      MulMono(over, c.prev, window);
      assert window * c.prev == c.prev * window;
      if over == c.prev {
        CeilDivLaw(over * window, c.prev, window - 1);
        assert (window - 1) * c.prev == window * c.prev - c.prev;
      }
    }
  }

  lemma CurrentIsFull(limit: pos, window: pos, c: Counter, now: int)
    requires c.prev == 0 && c.curr <= limit && !Fits(limit, window, c, now)
    ensures c.curr == limit
  {
    if c.curr + 1 <= limit {
      MulMono(c.curr + 1, limit as int, window);
    }
  }

  /** Inside one window the test is a threshold on the elapsed time. */
  lemma OverloadLaw(limit: pos, window: pos, c: Counter, elapsed: int)
    ensures c.prev * (window - elapsed) + c.curr * window + window <= limit * window <==>
            (c.prev + c.curr + 1 - limit) * window <= elapsed * c.prev
  {
    assert c.prev * (window - elapsed) == c.prev * window - elapsed * c.prev;
    assert (c.prev + c.curr + 1 - limit) * window ==
           c.prev * window + c.curr * window + window - limit * window;
  }

  /** Waiting d in silence succeeds exactly from the least wait on. */
  lemma LeastWaitIsLeast(limit: pos, window: pos, c: Counter, now: int, d: nat)
    requires Denied(limit, window, c, now)
    ensures AdmitsAfter(limit, window, c, now, d) <==> LeastWait(limit, window, c, now - c.start) <= d
  {
    hide RetryAfter;
    RetryBranches(limit, window, c, now);
    var elapsed := now - c.start;
    var e := elapsed + d;
    var wait := LeastWait(limit, window, c, elapsed);
    if e < window {
      OverloadLaw(limit, window, c, e);
      if c.prev == 0 {
        CeilDivLaw(window as int, limit, 0);
      } else {
        CeilDivLaw((c.prev + c.curr + 1 - limit) * window, c.prev, e);
      }
    } else if e < 2 * window {
      var next := Counter(c.start + window, 0, c.curr);
      assert Roll(window, c, now + d) == next;
      OverloadLaw(limit, window, next, e - window);
      if c.prev == 0 {
        CeilDivLaw(window as int, limit, e - window);
        assert (c.curr + 1 - limit) * window == window;
      } else {
        MulMono(c.curr + 1 - limit, 0, window);
        MulMono(0, e - window, c.curr);
      }
    } else {
      MulMono(1, limit as int, window);
      CeilDivLaw(window as int, limit, window as int);
      MulMono(1, limit as int, window);
      assert window * limit == limit * window;
    }
  }

  /** After a denial anywhere in a run, a client that then stays silent is
      admitted exactly from RetryAfter on: not a nanosecond sooner, and at every
      later time too. */
  lemma RetryAfterIsLeast(limit: pos, window: pos, anchor: Anchor, ts: seq<int>)
    requires ts != [] && NonDecreasing(ts)
    requires !Play(Spec(limit, window, anchor), ts).results[|ts| - 1].allowed
    ensures var t := Play(Spec(limit, window, anchor), ts);
            RetryIsLeast(limit, window, t.state.value, ts[|ts| - 1], t.results[|ts| - 1].retryAfter)
  {
    var base := Base(window, anchor, ts);
    UnseenIsExact(limit, window, anchor, ts[0]);
    ExactIsPreserved(limit, window, anchor, base);
    var c, h, last := LastCall(Spec(limit, window, anchor), (c, h, last) => Exact(limit, window, base, c, h, last), ts);
    DeniedFromExact(limit, window, base, c, h, last, ts[|ts| - 1]);
  }

  lemma DeniedFromExact(limit: pos, window: pos, base: int, c: Counter, h: seq<int>, last: int, now: int)
    requires Exact(limit, window, base, c, h, last) && last <= now
    requires !Advance(limit, window, c, now).1.allowed
    ensures var (next, r) := Advance(limit, window, c, now);
            Denied(limit, window, next, now) && RetryIsLeast(limit, window, next, now, r.retryAfter)
  {
    AdvanceTracks(limit, window, base, c, h, last, now);
    DeniedRetry(limit, window, Roll(window, c, now), now);
  }

  /** Silence for d is rewarded exactly when d is at least `retry`. */
  ghost predicate RetryIsLeast(limit: pos, window: pos, c: Counter, now: int, retry: int) {
    && 0 < retry <= 2 * window
    && forall d: nat :: AdmitsAfter(limit, window, c, now, d) <==> retry <= d
  }

  lemma DeniedRetry(limit: pos, window: pos, c: Counter, now: int)
    requires Denied(limit, window, c, now)
    ensures RetryIsLeast(limit, window, c, now, RetryAfter(limit, window, c, now - c.start))
  {
    RetryBranches(limit, window, c, now);
    forall d: nat
      ensures AdmitsAfter(limit, window, c, now, d) <==> LeastWait(limit, window, c, now - c.start) <= d
    {
      LeastWaitIsLeast(limit, window, c, now, d);
    }
    CeilDivLaw(window as int, limit, window as int);
    CeilDivLaw(window as int, limit, 0);
    MulMono(1, limit as int, window);
    assert window * limit == limit * window;
  }

  // ---- Reset ----

  /** A call d after the last one at `now`, with nothing in between, finds nothing
      left in the estimate. */
  predicate EmptyAfter(window: pos, c: Counter, now: int, d: nat) {
    Load(window, Roll(window, c, now + d), now + d) == 0
  }

  /** ResetAfter is the end of the current window. A silent key is at full capacity
      from then on exactly if nothing was admitted in that window; otherwise it
      takes a window more. */
  lemma ResetAfterIsWindowEnd(limit: pos, window: pos, anchor: Anchor, ts: seq<int>)
    requires ts != [] && NonDecreasing(ts)
    ensures var t, now := Play(Spec(limit, window, anchor), ts), ts[|ts| - 1];
            var c, reset := t.state.value, t.results[|ts| - 1].resetAfter;
            forall d: nat ::
              EmptyAfter(window, c, now, d) <==> (if c.curr == 0 then reset else reset + window) <= d
  {
    hide Advance, EmptyAfter;
    var base := Base(window, anchor, ts);
    UnseenIsExact(limit, window, anchor, ts[0]);
    ExactIsPreserved(limit, window, anchor, base);
    var c, h, last := LastCall(Spec(limit, window, anchor), (c, h, last) => Exact(limit, window, base, c, h, last), ts);
    AdvanceTracks(limit, window, base, c, h, last, ts[|ts| - 1]);
    ResetFrom(limit, window, Roll(window, c, ts[|ts| - 1]), ts[|ts| - 1]);
    AdvancesFromRolled(limit, window, c, ts[|ts| - 1]);
  }

  /** Whatever the configuration, a fresh key's first answer already fails: it
      advertises one window, and full capacity takes two. */
  lemma FirstResetFallsShort(limit: pos, window: pos)
    ensures var t := Play(Spec(limit, window, FirstRequest), [0]);
            && t.results[0].allowed && t.results[0].resetAfter == window
            && !EmptyAfter(window, t.state.value, 0, window) && EmptyAfter(window, t.state.value, 0, 2 * window)
  {
    hide Advance, EmptyAfter;
    assert [0][..0] == [];
    FirstAnswer(limit, window);
    ResetAfterIsWindowEnd(limit, window, FirstRequest, [0]);
  }

  lemma FirstAnswer(limit: pos, window: pos)
    ensures var (next, r) := Advance(limit, window, Counter(0, 0, 0), 0);
            next.curr == 1 && r.allowed && r.resetAfter == window
  {
    MulMono(1, limit as int, window);
  }

  lemma AdvancesFromRolled(limit: pos, window: pos, c: Counter, now: int)
    requires c.start <= now
    ensures Advance(limit, window, Roll(window, c, now), now) == Advance(limit, window, c, now)
  {
    RollTwice(window, c, now, now);
  }

  lemma ResetFrom(limit: pos, window: pos, c: Counter, now: int)
    requires c.start <= now < c.start + window
    ensures var (next, r) := Advance(limit, window, c, now);
            forall d: nat ::
              EmptyAfter(window, next, now, d) <==>
              (if next.curr == 0 then r.resetAfter else r.resetAfter + window) <= d
  {
    var (next, r) := Advance(limit, window, c, now);
    assert next.start == c.start && r.resetAfter == window - (now - c.start);
    assert next.curr == 0 ==> next.prev > 0;
    hide Advance;
    forall d: nat
      ensures EmptyAfter(window, next, now, d) <==>
              (if next.curr == 0 then r.resetAfter else r.resetAfter + window) <= d
    {
      EmptyFrom(window, next, now + d);
    }
  }

  lemma EmptyFrom(window: pos, c: Counter, now: int)
    requires c.start <= now && (c.curr > 0 || c.prev > 0)
    ensures Load(window, Roll(window, c, now), now) == 0 <==>
            c.start + (if c.curr == 0 then window else 2 * window) <= now
  {
    var e := now - c.start;
    if e < window {
      if c.prev > 0 {
        MulMono(1, c.prev, window - e);
      }
      MulMono(0, c.curr, window);
      if c.curr > 0 {
        MulMono(1, c.curr, window);
      }
    } else if e < 2 * window && c.curr > 0 {
      MulMono(1, c.curr, 2 * window - e);
    }
  }

  // ---- How much a window boundary can let through ----

  /** Admissions in the window before a boundary and in the first d of the window
      after it: the previous window's count has decayed by the last one's age. */
  ghost predicate BoundaryHolds(limit: pos, window: pos, h: seq<int>, boundary: int, d: nat) {
    var before, past := Count(h, boundary - window, boundary), Count(h, boundary, boundary + d);
    past == 0 || (before + past) * window <= limit * window + before * (d - 1)
  }

  lemma BoundaryIsPreserved(limit: pos, window: pos, anchor: Anchor, base: int, k: int, d: nat)
    requires d <= window
    ensures Preserves(Spec(limit, window, anchor), (c, h, last) =>
              Exact(limit, window, base, c, h, last) && BoundaryHolds(limit, window, h, base + k * window, d))
  {
    var alg := Spec(limit, window, anchor);
    var inv := (c, h, last) =>
      Exact(limit, window, base, c, h, last) && BoundaryHolds(limit, window, h, base + k * window, d);
    forall c: Counter, h: seq<int>, last: int, now: int | inv(c, h, last) && last <= now
      ensures HoldsAfter(alg, inv, c, h, now)
    {
      AdvanceTracks(limit, window, base, c, h, last, now);
      var rolled := Roll(window, c, now);
      if Fits(limit, window, rolled, now) {
        BoundaryStep(limit, window, base, rolled, h, now, k, d);
      }
    }
  }

  lemma BoundaryBound(limit: pos, window: pos, anchor: Anchor, ts: seq<int>, k: int, d: nat)
    requires ts != [] && NonDecreasing(ts) && d <= window
    ensures BoundaryHolds(limit, window, History(limit, window, anchor, ts),
                          Base(window, anchor, ts) + k * window, d)
  {
    var base := Base(window, anchor, ts);
    UnseenIsExact(limit, window, anchor, ts[0]);
    BoundaryIsPreserved(limit, window, anchor, base, k, d);
    var _, _, _ := LastCall(Spec(limit, window, anchor), (c, h, last) =>
      Exact(limit, window, base, c, h, last) && BoundaryHolds(limit, window, h, base + k * window, d), ts);
  }

  lemma SameWindow(window: pos, base: int, k: int, now: int)
    requires base + k * window <= now < base + k * window + window
    ensures WindowOf(window, base, now) == base + k * window
  {
    assert WindowOf(window, base, base) == base;
    WindowOfIsUnique(window, base, base, k, now);
  }

  lemma BoundaryStep(limit: pos, window: pos, base: int, c: Counter, h: seq<int>, now: int, k: int, d: nat)
    requires Tracks(window, base, c, h, now) && Fits(limit, window, c, now) && d <= window
    requires BoundaryHolds(limit, window, h, base + k * window, d)
    ensures BoundaryHolds(limit, window, h + [now], base + k * window, d)
  {
    var boundary := base + k * window;
    CountSnoc(h, now, boundary - window, boundary);
    CountSnoc(h, now, boundary, boundary + d);
    if boundary <= now < boundary + d {
      SameWindow(window, base, k, now);
      CountBeyond(h, now, c.start, c.start + d, c.start + window);
      DecayedRoom(limit, window, c.prev, c.curr, now - c.start, d);
    } else if now < boundary {
      CountNone(h, now, boundary, boundary + d);
    }
  }

  lemma DecayedRoom(limit: nat, window: nat, prev: nat, curr: nat, e: int, d: int)
    requires prev * (window - e) + curr * window + window <= limit * window && e < d
    ensures (prev + (curr + 1)) * window <= limit * window + prev * (d - 1)
  {
    assert prev * (window - e) == prev * window - prev * e;
    assert (prev + (curr + 1)) * window == prev * window + curr * window + window;
    MulMono(e, d - 1, prev);
  }

  /** No fixed window ever holds more than the limit. */
  lemma FixedWindowBound(limit: pos, window: pos, anchor: Anchor, ts: seq<int>, k: int)
    requires ts != [] && NonDecreasing(ts)
    ensures var start := Base(window, anchor, ts) + k * window;
            Count(History(limit, window, anchor, ts), start, start + window) <= limit
  {
    var h := History(limit, window, anchor, ts);
    var start := Base(window, anchor, ts) + k * window;
    BoundaryBound(limit, window, anchor, ts, k, window);
    DecayedShare(limit, window, Count(h, start - window, start), Count(h, start, start + window));
  }

  lemma DecayedShare(limit: nat, window: nat, before: nat, past: nat)
    requires window > 0
    requires past == 0 || (before + past) * window <= limit * window + before * (window - 1)
    ensures past <= limit
  {
    if past > limit {
      assert (before + past) * window == before * window + past * window;
      assert before * (window - 1) == before * window - before;
      MulMonoStrict(limit, past, window);
    }
  }

  /** An interval that reaches back at most one window from a boundary and d past
      it admits at most limit + limit * d / window. */
  lemma PastBoundaryBound(limit: pos, window: pos, anchor: Anchor, ts: seq<int>, k: int, lo: int, d: nat)
    requires ts != [] && NonDecreasing(ts) && d <= window
    requires var boundary := Base(window, anchor, ts) + k * window; boundary - window <= lo <= boundary
    ensures var h := History(limit, window, anchor, ts);
            var boundary := Base(window, anchor, ts) + k * window;
            Count(h, lo, boundary + d) * window <= limit * window + limit * d
  {
    var h := History(limit, window, anchor, ts);
    var boundary := Base(window, anchor, ts) + k * window;
    var before, past := Count(h, boundary - window, boundary), Count(h, boundary, boundary + d);
    CountSplit(h, lo, boundary, boundary + d);
    CountMono(h, lo, boundary, boundary - window, boundary);
    BoundaryBound(limit, window, anchor, ts, k, d);
    assert Base(window, anchor, ts) + (k - 1) * window == boundary - window;
    FixedWindowBound(limit, window, anchor, ts, k - 1);
    ShareOfTwo(limit, window, before, past, Count(h, lo, boundary + d), d);
  }

  lemma ShareOfTwo(limit: nat, window: nat, before: nat, past: nat, both: nat, d: nat)
    requires both <= before + past && before <= limit
    requires past == 0 || (before + past) * window <= limit * window + before * (d - 1)
    ensures both * window <= limit * window + limit * d
  {
    MulMono(both, before + past, window);
    MulMono(0, d, limit);
    if past == 0 {
      MulMono(before, limit, window);
    } else {
      MulMono(before, limit, d);
      assert before * (d - 1) == before * d - before;
    }
  }

  /** No half-open interval one window long, wherever it lies, admits 2 * limit. */
  lemma AnyWindowBound(limit: pos, window: pos, anchor: Anchor, ts: seq<int>, lo: int)
    requires ts != [] && NonDecreasing(ts)
    ensures Count(History(limit, window, anchor, ts), lo, lo + window) <= 2 * limit - 1
  {
    var base := Base(window, anchor, ts);
    var k := CeilDiv(lo - base, window);
    CeilDivLaw(lo - base, window, k);
    CeilDivLaw(lo - base, window, k - 1);
    assert (k - 1) * window == k * window - window;
    BoundaryBound(limit, window, anchor, ts, k, lo + window - (base + k * window));
    FixedWindowBound(limit, window, anchor, ts, k - 1);
    FixedWindowBound(limit, window, anchor, ts, k);
    AroundBoundary(limit, window, History(limit, window, anchor, ts), lo, base + k * window);
  }

  lemma AroundBoundary(limit: pos, window: pos, h: seq<int>, lo: int, boundary: int)
    requires lo <= boundary < lo + window
    requires Count(h, boundary - window, boundary) <= limit && Count(h, boundary, boundary + window) <= limit
    requires BoundaryHolds(limit, window, h, boundary, lo + window - boundary)
    ensures Count(h, lo, lo + window) <= 2 * limit - 1
  {
    CountSplit(h, lo, boundary, lo + window);
    CountMono(h, lo, boundary, boundary - window, boundary);
    CountMono(h, boundary, lo + window, boundary, boundary + window);
    NotTwiceTheLimit(limit, window, Count(h, boundary - window, boundary), Count(h, boundary, lo + window),
                     lo + window - boundary);
  }

  lemma NotTwiceTheLimit(limit: nat, window: nat, before: nat, past: nat, d: int)
    requires 0 < limit && before <= limit && past <= limit && d <= window && 0 < window
    requires past == 0 || (before + past) * window <= limit * window + before * (d - 1)
    ensures before + past <= 2 * limit - 1
  {
    MulMono(d - 1, window - 1, before);
    MulMono(before, limit, window - 1);
    assert limit * (window - 1) == limit * window - limit;
    assert (limit + limit) * window == limit * window + limit * window;
  }
}
