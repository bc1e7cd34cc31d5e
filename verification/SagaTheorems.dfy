/** What every run of the checkout saga guarantees, however its steps interleave,
    whatever is lost, repeated or reordered, and wherever a run crashes. */
module SagaTheorems {
  import opened Catalog
  import opened Saga
  import opened SagaInvariant
  import opened SagaSteps

  lemma ReachedOk(actions: seq<Action>)
    ensures Inv(Run(EMPTY, actions))
  {
    EmptyIsOk();
    RunKeepsInv(EMPTY, actions);
  }

  lemma {:induction false} RunAppend(s: State, a: seq<Action>, b: seq<Action>)
    ensures Run(s, a + b) == Run(Run(s, a), b)
    decreases |b|
  {
    hide Perform;
    if b == [] {
      assert a + b == a;
    } else {
      var front := b[..|b| - 1];
      RunAppend(s, a, front);
      assert (a + b)[..|a + b| - 1] == a + front;
    }
  }

  // ---- Fates as the ledger records them ----

  /** The units are still held, and have never moved otherwise. */
  ghost predicate OnHold(t: Tables, k: Key, units: int) {
    && k in t.rows && t.rows[k] == units
    && Times(t.journal, Hold, k) == 1 && Units(t.journal, Hold, k) == units
    && Times(t.journal, Return, k) == 0 && Times(t.journal, Consume, k) == 0
  }

  /** Exactly these units were held once and taken out of stock once, and none are
      held or were given back. */
  ghost predicate Shipped(t: Tables, k: Key, units: int) {
    && k !in t.rows
    && Times(t.journal, Hold, k) == 1 && Units(t.journal, Hold, k) == units
    && Times(t.journal, Consume, k) == 1 && Units(t.journal, Consume, k) == units
    && Times(t.journal, Return, k) == 0
  }

  /** Exactly these units were held once and given back once, and none are held or
      were taken out of stock. */
  ghost predicate Restored(t: Tables, k: Key, units: int) {
    && k !in t.rows
    && Times(t.journal, Hold, k) == 1 && Units(t.journal, Hold, k) == units
    && Times(t.journal, Return, k) == 1 && Units(t.journal, Return, k) == units
    && Times(t.journal, Consume, k) == 0
  }

  ghost predicate NeverMoved(t: Tables, k: Key) {
    k !in t.rows && forall kind :: Times(t.journal, kind, k) == 0
  }

  lemma {:induction false} StoryTellsAll(j: seq<Movement>, k: Key)
    ensures forall kind :: Times(Story(j, k), kind, k) == Times(j, kind, k)
    ensures forall kind :: Units(Story(j, k), kind, k) == Units(j, kind, k)
  {
    hide Times, Units;
    if j != [] {
      var front, last := j[..|j| - 1], j[|j| - 1];
      StoryTellsAll(front, k);
      JournalSnoc(front, last);
      JournalSnoc(Story(front, k), last);
      assert j == front + [last];
      assert Story(j, k) == Story(front, k) + [last] || Story(j, k) == Story(front, k);
    }
  }

  /** The fate of a line says everything the ledger has recorded about it. */
  lemma FateIsLedger(t: Tables, k: Key)
    ensures match FateOf(t, k)
            case Untouched => NeverMoved(t, k)
            case Held(units) => OnHold(t, k, units)
            case GivenBack(units) => Restored(t, k, units)
            case Consumed(units) => Shipped(t, k, units)
            case Irregular => true
  {
    StoryTellsAll(t.journal, k);
    var story := Story(t.journal, k);
    hide Story;
    if |story| == 1 {
      JournalSnoc([], story[0]);
      assert [] + [story[0]] == story;
    } else if |story| == 2 {
      JournalSnoc([], story[0]);
      JournalSnoc([story[0]], story[1]);
      assert [] + [story[0]] == [story[0]] && [story[0]] + [story[1]] == story;
    }
  }

  // ---- Safety ----

  function KeyOf(w: World, o: OrderId, i: nat): Key
    requires o in w.orders && i < |w.orders[o].lines|
  {
    Key(o, w.orders[o].lines[i].product)
  }

  /** A confirmed order has had every line taken out of stock exactly once, in full;
      a cancelled one has had every line given back; and no order ever has one line
      taken out and one given back. */
  lemma SagaSafety(actions: seq<Action>, o: OrderId)
    requires o in Run(EMPTY, actions).world.orders
    ensures var w := Run(EMPTY, actions).world;
            var t, lines, status := w.catalog, w.orders[o].lines, w.orders[o].status;
            && (status.Confirmed? ==> forall i :: 0 <= i < |lines| ==> Shipped(t, KeyOf(w, o, i), lines[i].units))
            && (status.Cancelled? ==> forall i :: 0 <= i < |lines| ==> Restored(t, KeyOf(w, o, i), lines[i].units))
            && (forall p, q :: !(Times(t.journal, Consume, Key(o, p)) > 0 && Times(t.journal, Return, Key(o, q)) > 0))
  {
    hide Run, FateOf, Sound, Total, Times, Units;
    ReachedOk(actions);
    var w := Run(EMPTY, actions).world;
    assert OrderOk(w, o);
    assert w.orders[o].status.Confirmed? ==> Closed(w, o, Succeeded);
    assert w.orders[o].status.Cancelled? ==> Closed(w, o, Failed);
    forall i | 0 <= i < |w.orders[o].lines|
      ensures w.orders[o].status.Confirmed? ==> Shipped(w.catalog, KeyOf(w, o, i), w.orders[o].lines[i].units)
      ensures w.orders[o].status.Cancelled? ==> Restored(w.catalog, KeyOf(w, o, i), w.orders[o].lines[i].units)
    {
      FateIsLedger(w.catalog, KeyOf(w, o, i));
      var line := w.orders[o].lines[i];
      assert forall v :: Closed(w, o, v) ==> LineSettled(w, o, line, v);
    }
    forall p, q
      ensures !(Times(w.catalog.journal, Consume, Key(o, p)) > 0 && Times(w.catalog.journal, Return, Key(o, q)) > 0)
    {
      NeverMixed(w, o, p, q);
    }
  }

  lemma NeverMixed(w: World, o: OrderId, p: ProductId, q: ProductId)
    requires WorldOk(w)
    ensures !(Times(w.catalog.journal, Consume, Key(o, p)) > 0 && Times(w.catalog.journal, Return, Key(o, q)) > 0)
  {
    hide FateOf, Sound, Total, Times, Units;
    FateIsLedger(w.catalog, Key(o, p));
    FateIsLedger(w.catalog, Key(o, q));
    LineIsRegular(w, o, p);
    LineIsRegular(w, o, q);
  }

  /** Every fate any line can have, and when. */
  lemma LineIsRegular(w: World, o: OrderId, p: ProductId)
    requires WorldOk(w)
    ensures var fate := LineFate(w, o, p);
            && !fate.Irregular?
            && (fate.Consumed? ==>
                  && Decided(w, o, Succeeded)
                  && exists i :: 0 <= i < |w.orders[o].lines| && w.orders[o].lines[i].product == p &&
                                 w.orders[o].lines[i].units == fate.units)
            && (Published(w, o) && fate.GivenBack? ==> Decided(w, o, Failed))
  {
    hide FateOf, Sound, Total;
    if Published(w, o) {
      assert OrderOk(w, o);
      var lines := w.orders[o].lines;
      if Lists(lines, |lines|, p) {
        var i :| 0 <= i < |lines| && lines[i].product == p;
        assert LineOk(w, o, lines[i]);
      }
    } else {
      assert UnpublishedOk(w, o);
    }
  }

  /** Stock only ever leaves for a paid order, and then exactly as ordered. */
  lemma StockLeavesOnlyWhenPaid(actions: seq<Action>, k: Key)
    requires Times(Run(EMPTY, actions).world.catalog.journal, Consume, k) > 0
    ensures var w := Run(EMPTY, actions).world;
            && k.order in w.orders && k.order in w.payments && w.payments[k.order].verdict.Succeeded?
            && exists i :: 0 <= i < |w.orders[k.order].lines| && KeyOf(w, k.order, i) == k &&
                           Shipped(w.catalog, k, w.orders[k.order].lines[i].units)
  {
    hide Run, FateOf, Sound, Total, Times, Units;
    ReachedOk(actions);
    var w := Run(EMPTY, actions).world;
    FateIsLedger(w.catalog, k);
    LineIsRegular(w, k.order, k.product);
    var lines := w.orders[k.order].lines;
    var units := LineFate(w, k.order, k.product).units;
    var i :| 0 <= i < |lines| && lines[i].product == k.product && lines[i].units == units;
    assert KeyOf(w, k.order, i) == k;
  }

  /** A settling run never finds its order in the opposite final status, so the
      guarded update's conflict branch is dead. */
  lemma ClosingNeverConflicts(actions: seq<Action>, pid: nat)
    requires var s := Run(EMPTY, actions); pid in s.procs && s.procs[pid].Settling?
    ensures var s := Run(EMPTY, actions);
            var p := s.procs[pid];
            && p.order in s.world.orders && p.lines == s.world.orders[p.order].lines
            && (s.world.orders[p.order].status.Pending? || s.world.orders[p.order].status == StatusFor(p.verdict))
  {
    hide Run, FateOf, Sound, Total;
    ReachedOk(actions);
    var s := Run(EMPTY, actions);
    assert ProcOk(s.world, s.procs[pid]);
    var o := s.procs[pid].order;
    assert OrderOk(s.world, o);
    assert forall v :: s.world.orders[o].status == StatusFor(v) ==> Closed(s.world, o, v);
    assert s.world.orders[o].status.Confirmed? ==> s.world.orders[o].status == StatusFor(Succeeded);
    assert s.world.orders[o].status.Cancelled? ==> s.world.orders[o].status == StatusFor(Failed);
  }

  // ---- What only ever grows ----

  /** Rows and messages stay; an order keeps its lines and total, and changes status
      at most once. */
  ghost predicate Extends(w: World, w': World) {
    && (forall o :: o in w.payments ==> o in w'.payments && w'.payments[o] == w.payments[o])
    && w.sent <= w'.sent && w.answers <= w'.answers
    && (forall o :: o in w.orders ==> o in w'.orders && OrderExtends(w.orders[o], w'.orders[o]))
  }

  ghost predicate OrderExtends(a: Order, b: Order) {
    b.lines == a.lines && b.total == a.total && (a.status.Pending? || b == a)
  }

  lemma PerformExtends(s: State, a: Action)
    ensures Extends(s.world, Perform(s, a).world)
  {
    hide Reserve, Release, Settle, AddStock, CreateProduct, ByProduct;
  }

  lemma {:induction false} RunExtends(s: State, actions: seq<Action>)
    ensures Extends(s.world, Run(s, actions).world)
  {
    hide Perform;
    if actions != [] {
      RunExtends(s, actions[..|actions| - 1]);
      PerformExtends(Run(s, actions[..|actions| - 1]), actions[|actions| - 1]);
    }
  }

  predicate IsOutcome(m: Message) {
    !m.OrderCreated?
  }

  /** One payments row per order, for good; whatever was published or shown about an
      order, by any of the runs that raced for it, is that row's outcome, so no two
      outcomes ever differ. */
  lemma PaymentAgreement(before: seq<Action>, after: seq<Action>)
    ensures var s, s' := Run(EMPTY, before), Run(EMPTY, before + after);
            && (forall o :: o in s.world.payments ==>
                  o in s'.world.payments && s'.world.payments[o] == s.world.payments[o])
            && (forall i :: i in s.procs && (s.procs[i].Shown? || s.procs[i].Publishing?) ==>
                  var p := s.procs[i].payment; p.order in s'.world.payments && s'.world.payments[p.order] == p)
            && (forall m :: m in s'.world.sent && IsOutcome(m) ==>
                  m.order in s'.world.payments && m == OutcomeOf(s'.world.payments[m.order]))
            && (forall m, n :: m in s.world.sent && n in s'.world.sent && IsOutcome(m) && IsOutcome(n) ==>
                  m.order == n.order ==> m == n)
  {
    hide Run, FateOf, Sound, Total, OrderOk, UnpublishedOk;
    var s, s' := Run(EMPTY, before), Run(EMPTY, before + after);
    RunAppend(EMPTY, before, after);
    RunExtends(s, after);
    ReachedOk(before);
    ReachedOk(before + after);
    forall i | i in s.procs && (s.procs[i].Shown? || s.procs[i].Publishing?)
      ensures var p := s.procs[i].payment; p.order in s'.world.payments && s'.world.payments[p.order] == p
    {
      assert ProcOk(s.world, s.procs[i]);
    }
    forall m | m in s'.world.sent && IsOutcome(m)
      ensures m.order in s'.world.payments && m == OutcomeOf(s'.world.payments[m.order])
    {
      assert MessageOk(s'.world, m);
    }
  }

  /** Every payments row records what the processor said when some run asked about that
      order and amount. */
  lemma RowsAreAnswers(actions: seq<Action>, o: OrderId)
    requires o in Run(EMPTY, actions).world.payments
    ensures var w := Run(EMPTY, actions).world;
            var p := w.payments[o];
            p.order == o && exists i :: 0 <= i < |w.answers| && Says(w.answers[i], p)
  {
    hide Run, FateOf, Sound, Total, OrderOk, UnpublishedOk;
    ReachedOk(actions);
    assert PaymentOk(Run(EMPTY, actions).world, o);
  }

  /** The processor's reason is carried to the customer: a PaymentFailed carries its
      row's, and so does the cancelled order, unless it is empty. */
  lemma ReasonsAreCarried(actions: seq<Action>)
    ensures var w := Run(EMPTY, actions).world;
            && (forall m :: m in w.sent && m.PaymentFailed? ==>
                  && m.order in w.payments && w.payments[m.order].verdict.Failed?
                  && m.reason == w.payments[m.order].reason)
            && (forall o :: o in w.orders && w.orders[o].status.Cancelled? ==>
                  && o in w.payments && w.payments[o].verdict.Failed?
                  && (w.payments[o].reason != "" ==> w.orders[o].reason == w.payments[o].reason)
                  && (w.payments[o].reason == "" ==> w.orders[o].reason == "payment failed"))
            && (forall o :: o in w.orders && w.orders[o].status.Confirmed? ==> w.orders[o].reason == "")
  {
    hide Run, FateOf, Sound, Total, UnpublishedOk, LineOk;
    ReachedOk(actions);
    var w := Run(EMPTY, actions).world;
    forall m | m in w.sent && m.PaymentFailed?
      ensures m.order in w.payments && w.payments[m.order].verdict.Failed?
      ensures m.reason == w.payments[m.order].reason
    {
      assert MessageOk(w, m);
    }
    forall o | o in w.orders && !w.orders[o].status.Pending?
      ensures var v := if w.orders[o].status.Confirmed? then Succeeded else Failed;
              o in w.payments && w.payments[o].verdict == v && Explained(w, o, v)
    {
      assert OrderOk(w, o);
      var v := if w.orders[o].status.Confirmed? then Succeeded else Failed;
      assert w.orders[o].status == StatusFor(v);
      assert Closed(w, o, v);
    }
  }

  /** Money is carried unchanged: the amount published for an order, the amount
      payment records for it and the amount it reports are all the sum of price times
      units over the lines as they read back. */
  lemma MoneyIsCarried(actions: seq<Action>, m: Message)
    requires m in Run(EMPTY, actions).world.sent
    ensures var w := Run(EMPTY, actions).world;
            && m.order in w.orders && w.orders[m.order].total == Total(w.orders[m.order].lines)
            && (m.OrderCreated? ==> m.amount == Total(w.orders[m.order].lines))
            && (IsOutcome(m) ==> m.order in w.payments)
            && (m.PaymentSucceeded? ==> m.amount == w.payments[m.order].amount)
            && (m.order in w.payments && w.payments[m.order].viaSaga ==>
                  w.payments[m.order].amount == Total(w.orders[m.order].lines))
  {
    hide Run, FateOf, Sound, Total, UnpublishedOk, PublishedOk;
    ReachedOk(actions);
    var w := Run(EMPTY, actions).world;
    assert MessageOk(w, m);
    assert OrderOk(w, m.order);
    if m.order in w.payments {
      assert PaymentOk(w, m.order);
      var created := OrderCreated(m.order, w.payments[m.order].amount);
      assert created in w.sent ==> MessageOk(w, created);
    }
  }

  // ---- createOrder ----

  /** Once announced and until payment has decided, an order holds each of its lines
      in full and nothing else. */
  lemma AnnouncedOrdersAreHeld(actions: seq<Action>, o: OrderId)
    requires var w := Run(EMPTY, actions).world; exists m :: m in w.sent && m.order == o
    requires o !in Run(EMPTY, actions).world.payments
    ensures var w := Run(EMPTY, actions).world;
            && o in w.orders && w.orders[o].status.Pending?
            && (forall i :: 0 <= i < |w.orders[o].lines| ==>
                  OnHold(w.catalog, KeyOf(w, o, i), w.orders[o].lines[i].units))
            && (forall p :: Key(o, p) in w.catalog.rows ==>
                  exists i :: 0 <= i < |w.orders[o].lines| && w.orders[o].lines[i].product == p)
  {
    hide Run, FateOf, Sound, Total, Times, Units;
    ReachedOk(actions);
    var w := Run(EMPTY, actions).world;
    var m :| m in w.sent && m.order == o;
    assert MessageOk(w, m);
    assert OrderOk(w, o);
    var lines := w.orders[o].lines;
    assert forall v :: !Decided(w, o, v);
    assert !Closed(w, o, Succeeded) && !Closed(w, o, Failed);
    forall i | 0 <= i < |lines|
      ensures OnHold(w.catalog, KeyOf(w, o, i), lines[i].units)
    {
      assert LineOk(w, o, lines[i]);
      FateIsLedger(w.catalog, KeyOf(w, o, i));
    }
    forall p | !Lists(lines, |lines|, p)
      ensures Key(o, p) !in w.catalog.rows
    {
      assert LineFate(w, o, p).Untouched?;
      FateIsLedger(w.catalog, Key(o, p));
    }
  }
}
