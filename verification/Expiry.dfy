/** Keys that Redis forgets. A script stores its state with a time to live; once
    that has passed the key may vanish at any moment. */
module Expiry {
  import opened Wrappers
  import opened Limiter

  /** A script: the limiter it runs, the states that limiter can be in, the clock
      reading in a call, and the earliest time a stored state may vanish. */
  datatype Script<!S, !In> = Script(
    alg: Algorithm<S, In>,
    sane: S -> bool,
    clock: In -> int,
    deadline: (S, In) -> int)

  datatype Stored<+S> = Stored(state: S, deadline: int)

  datatype Event<+In> = Request(call: In) | Vanish(at: int)

  function TimeOf<S, In>(script: Script<S, In>, e: Event<In>): int {
    match e
    case Request(call) => script.clock(call)
    case Vanish(at) => at
  }

  function StateOf<S>(e: Option<Stored<S>>): Option<S> {
    if e.Some? then Some(e.value.state) else None
  }

  function Serve<S, In>(script: Script<S, In>, e: Option<Stored<S>>, call: In): (Stored<S>, Result) {
    var (s, r) := Call(script.alg, StateOf(e), call);
    (Stored(s, script.deadline(s, call)), r)
  }

  /** Redis drops a key whose time to live has passed, and no other. */
  function Drop<S>(e: Option<Stored<S>>, at: int): Option<Stored<S>> {
    if e.Some? && at >= e.value.deadline then None else e
  }

  datatype Served<+S> = Served(entry: Option<Stored<S>>, results: seq<Result>)

  /** A run in which the key vanishes whenever the events say it does. */
  function PlayExpiring<S, In>(script: Script<S, In>, events: seq<Event<In>>): Served<S> {
    if events == [] then Served(None, [])
    else
      var n := |events| - 1;
      var before := PlayExpiring(script, events[..n]);
      match events[n]
      case Vanish(at) => Served(Drop(before.entry, at), before.results)
      case Request(call) =>
        var (stored, r) := Serve(script, before.entry, call);
        Served(Some(stored), before.results + [r])
  }

  function Requests<In>(events: seq<Event<In>>): seq<In> {
    if events == [] then []
    else
      var n := |events| - 1;
      Requests(events[..n]) + (if events[n].Request? then [events[n].call] else [])
  }

  ghost predicate InOrder<S, In>(script: Script<S, In>, events: seq<Event<In>>) {
    forall i, j :: 0 <= i <= j < |events| ==> TimeOf(script, events[i]) <= TimeOf(script, events[j])
  }

  /** From `deadline` on, a call finds no difference between the state and a key
      it has never seen. */
  ghost predicate Fades<S, In(!new)>(script: Script<S, In>, s: S, deadline: int) {
    forall call :: script.clock(call) >= deadline ==>
      script.alg.advance(s, call) == script.alg.advance(script.alg.unseen(call), call)
  }

  /** Every state the script stores has faded by its deadline. */
  ghost predicate OutlivesItsState<S(!new), In(!new)>(script: Script<S, In>) {
    && (forall call :: script.sane(script.alg.unseen(call)))
    && (forall s, call :: script.sane(s) ==> StoresFading(script, s, call))
  }

  ghost predicate StoresFading<S, In(!new)>(script: Script<S, In>, s: S, call: In) {
    var next := script.alg.advance(s, call).0;
    script.sane(next) && Fades(script, next, script.deadline(next, call))
  }

  /** The entry and the state that never expires agree, or the entry is gone and
      the state has faded. */
  ghost predicate Indistinct<S, In(!new)>(script: Script<S, In>, e: Option<Stored<S>>, s: Option<S>, now: int) {
    match e
    case Some(stored) =>
      s == Some(stored.state) && script.sane(stored.state) && Fades(script, stored.state, stored.deadline)
    case None => s.Some? ==> Fades(script, s.value, now)
  }

  /** Key expiry is unobservable: every answer is the one a store that never
      forgets would have given, whenever the keys vanish. */
  lemma {:induction false} ExpiryIsUnobservable<S(!new), In(!new)>(script: Script<S, In>, events: seq<Event<In>>)
    requires OutlivesItsState(script) && InOrder(script, events)
    ensures PlayExpiring(script, events).results == Play(script.alg, Requests(events)).results
    ensures events != [] ==>
      Indistinct(script, PlayExpiring(script, events).entry, Play(script.alg, Requests(events)).state,
                 TimeOf(script, events[|events| - 1]))
  {
    if events != [] {
      var n := |events| - 1;
      ExpiryIsUnobservable(script, events[..n]);
      var e := PlayExpiring(script, events[..n]).entry;
      var s := Play(script.alg, Requests(events[..n])).state;
      if n > 0 {
        assert TimeOf(script, events[n - 1]) <= TimeOf(script, events[n]);
      }
      if events[n].Request? {
        var call := events[n].call;
        PlaySnoc(script.alg, Requests(events[..n]), call);
        assert Requests(events) == Requests(events[..n]) + [call];
        assert Call(script.alg, StateOf(e), call) == Call(script.alg, s, call);
        var found := if StateOf(e).Some? then StateOf(e).value else script.alg.unseen(call);
        assert StoresFading(script, found, call);
      } else {
        assert Requests(events) == Requests(events[..n]);
      }
    }
  }

  /** A key kept for d rounded up to a millisecond and a second more ends in time. */
  lemma EndsInTime(now: int, d: nat, ms: int)
    requires ms <= d / MILLISECOND + 1
    ensures (now / MILLISECOND + ms + 1000) * MILLISECOND <= now + d + SECOND + MILLISECOND
  {
  }
}
