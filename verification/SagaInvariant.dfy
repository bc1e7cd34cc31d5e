/** The joint invariant of the three stores, the message pool and every run in
    progress, and that each step keeps it. */
module SagaInvariant {
  import opened Catalog
  import opened Saga

  // ---- How a catalog call moves one line ----

  /** The two tables agree on the fate of every line but one. */
  ghost predicate OnlyMoved(t: Tables, t': Tables, k: Key) {
    forall x: Key :: x != k ==> FateOf(t', x) == FateOf(t, x)
  }

  lemma StorySnoc(j: seq<Movement>, m: Movement)
    ensures forall k :: Story(j + [m], k) == Story(j, k) + (if m.Moved? && m.key == k then [m] else [])
  {
    assert (j + [m])[..|j|] == j;
  }

  lemma MoveIsLocal(t: Tables, t': Tables, kind: Kind, k: Key, units: int)
    requires t'.journal == t.journal + [Moved(kind, k, units)]
    requires forall x :: x != k ==> (x in t'.rows <==> x in t.rows) && (x in t.rows ==> t'.rows[x] == t.rows[x])
    ensures OnlyMoved(t, t', k)
  {
    hide Story;
    StorySnoc(t.journal, Moved(kind, k, units));
  }

  lemma ReserveMoves(t: Tables, k: Key, units: int)
    requires FateOf(t, k).Untouched?
    ensures var (t', outcome) := Reserve(t, k, units);
            && OnlyMoved(t, t', k)
            && (if outcome.Done? then FateOf(t', k) == Held(units) else t' == t)
  {
    hide Story;
    var (t', outcome) := Reserve(t, k, units);
    if outcome.Done? {
      StorySnoc(t.journal, Moved(Hold, k, units));
      MoveIsLocal(t, t', Hold, k, units);
    }
  }

  lemma SettledStory(t: Tables, t': Tables, v: Verdict, k: Key)
    requires FateOf(t, k).Held? && k !in t'.rows
    requires Story(t'.journal, k) ==
             Story(t.journal, k) + [Moved(if v.Succeeded? then Consume else Return, k, t.rows[k])]
    ensures FateOf(t', k) == SettledFate(v, t.rows[k])
  {
    hide Story;
    var hold, settle := Moved(Hold, k, t.rows[k]), Moved(if v.Succeeded? then Consume else Return, k, t.rows[k]);
    assert Story(t.journal, k) == [hold];
    assert Story(t'.journal, k) == [hold, settle];
  }

  /** A held line is settled by the first release or commit; a line that is not
      held is left alone. */
  lemma SettleMoves(t: Tables, v: Verdict, k: Key)
    requires FateOf(t, k).Held? ==> k.product in t.products
    requires !FateOf(t, k).Irregular?
    ensures var (t', outcome) := Settle(t, v, k);
            && OnlyMoved(t, t', k)
            && (match FateOf(t, k)
                case Held(units) => outcome.Done? && FateOf(t', k) == SettledFate(v, units)
                case _ => t' == t)
  {
    hide Story;
    var (t', outcome) := Settle(t, v, k);
    var fate := FateOf(t, k);
    if fate.Held? {
      var kind := if v.Succeeded? then Consume else Return;
      assert t'.journal == t.journal + [Moved(kind, k, t.rows[k])];
      StorySnoc(t.journal, Moved(kind, k, t.rows[k]));
      MoveIsLocal(t, t', kind, k, t.rows[k]);
      SettledStory(t, t', v, k);
    } else {
      assert k !in t.rows;
    }
  }

  lemma StockingMovesNothing(t: Tables, product: ProductId, a: int, b: int)
    ensures forall k :: FateOf(AddStock(t, product, a).0, k) == FateOf(t, k)
    ensures forall k :: FateOf(CreateProduct(t, product, a, b).0, k) == FateOf(t, k)
  {
    hide Story;
    StorySnoc(t.journal, Stocked(product, a));
    StorySnoc(t.journal, Stocked(product, b));
  }

  /** Every line of a sound catalog that is held has its product. */
  lemma HeldHasProduct(t: Tables, k: Key)
    requires Sound(t) && FateOf(t, k).Held?
    ensures k in t.rows && t.rows[k] == FateOf(t, k).units && k.product in t.products
  {
    hide Times, Units, Sold, Received, RowsHeld, Story;
  }

  lemma {:induction false} MovedHasProduct(t: Tables, k: Key)
    requires Sound(t) && !FateOf(t, k).Untouched?
    ensures k.product in t.products
  {
    hide Times, Units, Sold, Received, RowsHeld;
    if k !in t.rows {
      StoryHasSource(t.journal, k);
    }
  }

  lemma {:induction false} StoryHasSource(j: seq<Movement>, k: Key)
    requires Story(j, k) != []
    ensures exists i :: 0 <= i < |j| && j[i].Moved? && j[i].key == k
  {
    var n := |j| - 1;
    if !(j[n].Moved? && j[n].key == k) {
      StoryHasSource(j[..n], k);
      var i :| 0 <= i < n && j[..n][i].Moved? && j[..n][i].key == k;
      assert j[i].Moved?;
    }
  }

  // ---- The invariant ----

  ghost predicate Distinct(lines: seq<Line>) {
    forall i, j :: 0 <= i < j < |lines| ==> lines[i].product != lines[j].product
  }

  /** The product is one of the first n lines. */
  ghost predicate Lists(lines: seq<Line>, n: nat, product: ProductId)
    requires n <= |lines|
  {
    exists i :: 0 <= i < n && lines[i].product == product
  }

  ghost predicate Published(w: World, o: OrderId) {
    o in w.orders && OrderCreated(o, w.orders[o].total) in w.sent
  }

  /** Payment has settled the order's charge with this verdict, for good. */
  ghost predicate Decided(w: World, o: OrderId, v: Verdict) {
    Published(w, o) && o in w.payments && w.payments[o].verdict == v
  }

  function LineFate(w: World, o: OrderId, product: ProductId): Fate {
    FateOf(w.catalog, Key(o, product))
  }

  /** Before publication lines are only ever held and given back. */
  ghost predicate UnpublishedOk(w: World, o: OrderId) {
    forall p :: LineFate(w, o, p).Untouched? || LineFate(w, o, p).Held? || LineFate(w, o, p).GivenBack?
  }

  /** A line of a published order is held until a verdict settles it. */
  ghost predicate LineOk(w: World, o: OrderId, line: Line) {
    var fate := LineFate(w, o, line.product);
    || fate == Held(line.units)
    || (exists v :: Decided(w, o, v) && fate == SettledFate(v, line.units))
  }

  ghost predicate LineSettled(w: World, o: OrderId, line: Line, v: Verdict) {
    LineFate(w, o, line.product) == SettledFate(v, line.units)
  }

  ghost predicate PublishedOk(w: World, o: OrderId)
    requires o in w.orders
  {
    var lines := w.orders[o].lines;
    && (forall i :: 0 <= i < |lines| ==> LineOk(w, o, lines[i]))
    && (forall p :: !Lists(lines, |lines|, p) ==> LineFate(w, o, p).Untouched?)
    && (forall v :: w.orders[o].status == StatusFor(v) ==> Closed(w, o, v) && Explained(w, o, v))
  }

  /** The order's verdict is final and every line has been settled by it. */
  ghost predicate Closed(w: World, o: OrderId, v: Verdict)
    requires o in w.orders
  {
    var lines := w.orders[o].lines;
    Decided(w, o, v) && forall i :: 0 <= i < |lines| ==> LineSettled(w, o, lines[i], v)
  }

  /** The order's stored reason is its payment's. */
  predicate Explained(w: World, o: OrderId, v: Verdict) {
    o in w.orders && o in w.payments && w.orders[o].reason == ReasonFor(v, w.payments[o].reason)
  }

  predicate Says(a: Answer, p: Payment) {
    a.order == p.order && a.amount == p.amount && a.verdict == p.verdict && a.reason == p.reason
  }

  /** The processor has said so. */
  ghost predicate Backed(w: World, p: Payment) {
    && (p.verdict.Succeeded? ==> p.reason == "")
    && exists i :: 0 <= i < |w.answers| && Says(w.answers[i], p)
  }

  ghost predicate OrderOk(w: World, o: OrderId)
    requires o in w.orders
  {
    var order := w.orders[o];
    && o in w.drawn
    && Distinct(order.lines) && order.total == Total(order.lines)
    && (if Published(w, o) then PublishedOk(w, o) else order.status.Pending?)
  }

  ghost predicate PaymentOk(w: World, o: OrderId)
    requires o in w.payments
  {
    && w.payments[o].order == o && Backed(w, w.payments[o])
    && (w.payments[o].viaSaga ==> OrderCreated(o, w.payments[o].amount) in w.sent)
  }

  ghost predicate MessageOk(w: World, m: Message) {
    && Published(w, m.order)
    && (m.OrderCreated? ==> m.amount == w.orders[m.order].total)
    && (!m.OrderCreated? ==> m.order in w.payments && m == OutcomeOf(w.payments[m.order]))
  }

  ghost predicate WorldOk(w: World) {
    && Sound(w.catalog)
    && (forall k: Key :: k.order !in w.drawn ==> FateOf(w.catalog, k).Untouched?)
    && (forall o :: o in w.orders ==> OrderOk(w, o))
    && (forall o :: !Published(w, o) ==> UnpublishedOk(w, o))
    && (forall o :: o in w.payments ==> PaymentOk(w, o))
    && (forall m :: m in w.sent ==> MessageOk(w, m))
  }

  /** Each of an order's lines is held in full, and nothing else of the order. */
  ghost predicate AllHeld(w: World, o: OrderId, lines: seq<Line>) {
    && (forall i :: 0 <= i < |lines| ==> LineFate(w, o, lines[i].product) == Held(lines[i].units))
    && (forall product :: !Lists(lines, |lines|, product) ==> LineFate(w, o, product).Untouched?)
  }

  predicate Creator(p: Proc) {
    p.Pricing? || p.Reserving? || p.Announcing? || p.Undoing?
  }

  /** Where the lines of an order stand while its creating run is under way. */
  ghost predicate CreatorOk(w: World, p: Proc)
    requires Creator(p)
  {
    && p.order in w.drawn && !Published(w, p.order)
    && match p
       case Pricing(o, request, lines, total) =>
         && o !in w.orders && ValidRequest(request) && |lines| < |request| && total == Total(lines)
         && (forall i :: 0 <= i < |lines| ==>
               lines[i].product == request[i].product && lines[i].units == request[i].units)
         && (forall product :: LineFate(w, o, product).Untouched?)
       case Reserving(o, lines, total, done) =>
         && o !in w.orders && lines != [] && Distinct(lines) && total == Total(lines) && done <= |lines|
         && (forall i :: 0 <= i < done ==> LineFate(w, o, lines[i].product) == Held(lines[i].units))
         && (forall product :: !Lists(lines, done, product) ==> LineFate(w, o, product).Untouched?)
       case Announcing(o, total) =>
         o in w.orders && w.orders[o].total == total && AllHeld(w, o, w.orders[o].lines)
       case Undoing(o, lines, held, done, stranded) =>
         && Distinct(lines) && done <= held <= |lines|
         && (forall i :: done <= i < held ==> LineFate(w, o, lines[i].product).Held?)
         && (forall product :: product in stranded ==> LineFate(w, o, product).Held?)
         && (forall i :: done <= i < held ==> lines[i].product !in stranded)
         && (forall product :: product !in stranded && LineFate(w, o, product).Held? ==>
               Lists(lines, held, product) && !Lists(lines, done, product))
  }

  ghost predicate ProcOk(w: World, p: Proc) {
    match p
    case Pricing(_, _, _, _) => CreatorOk(w, p)
    case Reserving(_, _, _, _) => CreatorOk(w, p)
    case Announcing(_, _) => CreatorOk(w, p)
    case Undoing(_, _, _, _, _) => CreatorOk(w, p)
    case Looking(o, amount, viaSaga) => viaSaga ==> OrderCreated(o, amount) in w.sent
    case Charging(o, amount, viaSaga) => viaSaga ==> OrderCreated(o, amount) in w.sent
    case Storing(payment) =>
      Backed(w, payment) && (payment.viaSaga ==> OrderCreated(payment.order, payment.amount) in w.sent)
    case Reloading(o, viaSaga) => o in w.payments && (viaSaga ==> Published(w, o))
    case Publishing(payment) =>
      payment.order in w.payments && w.payments[payment.order] == payment && Published(w, payment.order)
    case Shown(payment) => payment.order in w.payments && w.payments[payment.order] == payment
    case Loading(o, v, reason) => Decided(w, o, v) && reason == w.payments[o].reason
    case Settling(o, lines, v, reason, done) =>
      && Decided(w, o, v) && reason == w.payments[o].reason && lines == w.orders[o].lines && done <= |lines|
      && forall i :: 0 <= i < done ==> LineSettled(w, o, lines[i], v)
    case Finished(o, v) => Decided(w, o, v) && w.orders[o].status == StatusFor(v)
  }

  /** No two runs create the same order. */
  ghost predicate CreatorsDiffer(procs: map<nat, Proc>) {
    forall i, j :: i in procs && j in procs && i != j && Creator(procs[i]) && Creator(procs[j]) ==>
      procs[i].order != procs[j].order
  }

  ghost predicate Inv(s: State) {
    && WorldOk(s.world)
    && (forall i :: i in s.procs ==> ProcOk(s.world, s.procs[i]))
    && CreatorsDiffer(s.procs)
  }

  lemma EmptyIsOk()
    ensures Inv(EMPTY)
  {
  }

  // ---- Changes of one run ----

  lemma WithOk(s: State, w: World, pid: nat, p: Proc)
    requires WorldOk(w) && ProcOk(w, p) && CreatorsDiffer(s.procs)
    requires forall i :: i in s.procs && i != pid ==> ProcOk(w, s.procs[i])
    requires Creator(p) ==> forall i :: i in s.procs && i != pid && Creator(s.procs[i]) ==> s.procs[i].order != p.order
    ensures Inv(With(s, w, pid, p))
  {
    hide WorldOk, ProcOk;
  }

  lemma WithoutOk(s: State, w: World, pid: nat)
    requires WorldOk(w) && CreatorsDiffer(s.procs)
    requires forall i :: i in s.procs && i != pid ==> ProcOk(w, s.procs[i])
    ensures Inv(Without(s, w, pid))
  {
    hide WorldOk, ProcOk;
  }

  /** A run that carries on creating its own order clashes with no other. */
  lemma SameCreator(s: State, w: World, pid: nat, p: Proc)
    requires Inv(s) && pid in s.procs && Creator(s.procs[pid])
    requires WorldOk(w) && ProcOk(w, p) && (Creator(p) ==> p.order == s.procs[pid].order)
    requires forall i :: i in s.procs && i != pid ==> ProcOk(w, s.procs[i])
    ensures Inv(With(s, w, pid, p))
  {
    hide WorldOk, ProcOk;
  }

  // ---- Changes of one table ----

  /** A catalog call moved the line k and nothing else. */
  ghost predicate LineMoved(w: World, w': World, k: Key) {
    && w' == w.(catalog := w'.catalog)
    && Sound(w'.catalog)
    && OnlyMoved(w.catalog, w'.catalog, k)
    && k.order in w.drawn
    && var fate, fate' := FateOf(w.catalog, k), FateOf(w'.catalog, k);
       || fate' == fate
       || (!Published(w, k.order) && (fate'.Held? || fate'.GivenBack?) && !fate.Consumed? && !fate.GivenBack?)
       || (exists v :: Decided(w, k.order, v) && fate.Held? && fate' == SettledFate(v, fate.units))
  }

  lemma MoveKeepsWorld(w: World, w': World, k: Key)
    requires WorldOk(w) && LineMoved(w, w', k)
    ensures WorldOk(w')
  {
    hide FateOf, Sound, Total;
    assert forall o :: Published(w', o) == Published(w, o);
    assert forall o, v :: Decided(w', o, v) == Decided(w, o, v);
    forall o | o in w'.orders
      ensures OrderOk(w', o)
    {
      assert OrderOk(w, o);
      if Published(w, o) {
        MoveKeepsPublished(w, w', k, o);
      }
    }
    forall o | !Published(w', o)
      ensures UnpublishedOk(w', o)
    {
      assert UnpublishedOk(w, o);
      forall p
        ensures LineFate(w', o, p).Untouched? || LineFate(w', o, p).Held? || LineFate(w', o, p).GivenBack?
      {
        assert LineFate(w, o, p) == FateOf(w.catalog, Key(o, p));
      }
    }
    forall o | o in w'.payments ensures PaymentOk(w', o) { assert PaymentOk(w, o); }
    forall m | m in w'.sent ensures MessageOk(w', m) { assert MessageOk(w, m); }
  }

  lemma MoveKeepsPublished(w: World, w': World, k: Key, o: OrderId)
    requires LineMoved(w, w', k) && Published(w, o) && PublishedOk(w, o)
    ensures PublishedOk(w', o)
  {
    hide FateOf, Sound, Total;
    assert forall v :: Decided(w', o, v) == Decided(w, o, v);
    var lines := w.orders[o].lines;
    forall i | 0 <= i < |lines|
      ensures LineOk(w', o, lines[i])
      ensures forall v :: LineSettled(w, o, lines[i], v) ==> LineSettled(w', o, lines[i], v)
    {
      assert LineOk(w, o, lines[i]);
    }
    forall p | !Lists(lines, |lines|, p)
      ensures LineFate(w', o, p).Untouched?
    {
      assert LineFate(w, o, p).Untouched?;
    }
    forall v | w'.orders[o].status == StatusFor(v)
      ensures Closed(w', o, v)
    {
      assert Closed(w, o, v);
    }
  }

  lemma MoveKeepsProc(w: World, w': World, k: Key, q: Proc)
    requires LineMoved(w, w', k) && ProcOk(w, q)
    requires Creator(q) ==> q.order != k.order
    ensures ProcOk(w', q)
  {
    hide FateOf, Sound, Total;
    assert forall o :: Published(w', o) == Published(w, o);
    assert forall o, v :: Decided(w', o, v) == Decided(w, o, v);
    if Creator(q) {
      assert forall p :: LineFate(w', q.order, p) == LineFate(w, q.order, p);
    } else if q.Settling? {
      forall i | 0 <= i < q.done
        ensures LineSettled(w', q.order, q.lines[i], q.verdict)
      {
        assert LineSettled(w, q.order, q.lines[i], q.verdict);
      }
    }
  }

  /** Stock arrives: no line of any order is concerned. */
  lemma StockKeepsAll(s: State, t: Tables)
    requires Inv(s) && Sound(t) && forall k :: FateOf(t, k) == FateOf(s.world.catalog, k)
    ensures Inv(s.(world := s.world.(catalog := t)))
  {
    hide FateOf, Sound, Total;
    var w, w' := s.world, s.world.(catalog := t);
    assert forall o :: Published(w', o) == Published(w, o);
    assert forall o, v :: Decided(w', o, v) == Decided(w, o, v);
    assert forall o, p :: LineFate(w', o, p) == LineFate(w, o, p);
    forall o | o in w'.orders ensures OrderOk(w', o) {
      assert OrderOk(w, o);
      if Published(w, o) {
        forall i | 0 <= i < |w.orders[o].lines|
          ensures LineOk(w', o, w.orders[o].lines[i])
        {
          assert LineOk(w, o, w.orders[o].lines[i]);
        }
        assert forall v :: Closed(w, o, v) ==> Closed(w', o, v);
      }
    }
    forall o | !Published(w', o) ensures UnpublishedOk(w', o) { assert UnpublishedOk(w, o); }
    forall o | o in w'.payments ensures PaymentOk(w', o) { assert PaymentOk(w, o); }
    forall m | m in w'.sent ensures MessageOk(w', m) { assert MessageOk(w, m); }
    forall i | i in s.procs ensures ProcOk(w', s.procs[i]) {
      assert ProcOk(w, s.procs[i]);
    }
  }

  /** A new order id is drawn. */
  lemma DrawKeepsAll(s: State, w': World, o: OrderId)
    requires Inv(s) && w' == s.world.(drawn := s.world.drawn + {o})
    ensures WorldOk(w') && forall i :: i in s.procs ==> ProcOk(w', s.procs[i])
  {
    hide FateOf, Sound, Total;
    var w := s.world;
    SameButDrawn(w, w');
    forall o | o in w'.orders ensures OrderOk(w', o) { assert OrderOk(w, o); }
    forall o | !Published(w', o) ensures UnpublishedOk(w', o) { assert UnpublishedOk(w, o); }
    forall o | o in w'.payments ensures PaymentOk(w', o) { assert PaymentOk(w, o); }
    forall m | m in w'.sent ensures MessageOk(w', m) { assert MessageOk(w, m); }
    forall i | i in s.procs ensures ProcOk(w', s.procs[i]) { assert ProcOk(w, s.procs[i]); }
  }

  lemma SameButDrawn(w: World, w': World)
    requires w' == w.(drawn := w'.drawn)
    ensures forall o :: Published(w', o) == Published(w, o)
    ensures forall o, v :: Decided(w', o, v) == Decided(w, o, v)
    ensures forall o, p :: LineFate(w', o, p) == LineFate(w, o, p)
    ensures forall o, v :: o in w.orders ==> Closed(w', o, v) == Closed(w, o, v)
    ensures forall o, line :: LineOk(w', o, line) == LineOk(w, o, line)
    ensures forall o :: o in w.orders ==> PublishedOk(w', o) == PublishedOk(w, o)
  {
    hide FateOf;
    assert forall o :: Published(w', o) == Published(w, o);
    assert forall o, v :: Decided(w', o, v) == Decided(w, o, v);
    assert forall o, p :: LineFate(w', o, p) == LineFate(w, o, p);
    assert forall o, line :: LineOk(w', o, line) == LineOk(w, o, line);
    assert forall o, line, v :: LineSettled(w', o, line, v) == LineSettled(w, o, line, v);
    assert forall o, v :: o in w.orders ==> Closed(w', o, v) == Closed(w, o, v);
  }

  /** An order row is inserted for an id that has none. */
  lemma InsertOrderKeepsAll(s: State, w': World, pid: nat, o: OrderId, order: Order)
    requires Inv(s) && w' == s.world.(orders := s.world.orders[o := order])
    requires o !in s.world.orders && o in s.world.drawn
    requires order.status.Pending? && Distinct(order.lines) && order.total == Total(order.lines)
    requires pid in s.procs && Creator(s.procs[pid]) && s.procs[pid].order == o
    ensures WorldOk(w') && forall i :: i in s.procs && i != pid ==> ProcOk(w', s.procs[i])
    ensures !Published(w', o)
  {
    hide FateOf, Sound, Total;
    var w := s.world;
    assert !Published(w', o) by {
      assert OrderCreated(o, order.total) in w.sent ==> MessageOk(w, OrderCreated(o, order.total));
    }
    assert forall x :: Published(w', x) == Published(w, x);
    assert forall x, v :: Decided(w', x, v) == Decided(w, x, v);
    assert forall x, p :: LineFate(w', x, p) == LineFate(w, x, p);
    forall x | x in w'.orders ensures OrderOk(w', x) {
      if x != o {
        assert OrderOk(w, x);
        if Published(w, x) {
          assert forall i :: 0 <= i < |w.orders[x].lines| ==> LineOk(w, x, w.orders[x].lines[i]);
          forall i | 0 <= i < |w.orders[x].lines|
            ensures LineOk(w', x, w.orders[x].lines[i])
          {
            assert LineOk(w, x, w.orders[x].lines[i]);
          }
          assert forall v :: Closed(w, x, v) ==> Closed(w', x, v);
        }
      }
    }
    forall x | !Published(w', x) ensures UnpublishedOk(w', x) { assert UnpublishedOk(w, x); }
    forall x | x in w'.payments ensures PaymentOk(w', x) { assert PaymentOk(w, x); }
    forall m | m in w'.sent ensures MessageOk(w', m) { assert MessageOk(w, m); }
    forall i | i in s.procs && i != pid ensures ProcOk(w', s.procs[i]) { assert ProcOk(w, s.procs[i]); }
  }

  /** OrderCreated is published by the run that created the order. */
  lemma AnnounceKeepsAll(s: State, w': World, pid: nat)
    requires Inv(s) && pid in s.procs && s.procs[pid].Announcing?
    requires w' == s.world.(sent := s.world.sent + {OrderCreated(s.procs[pid].order, s.procs[pid].total)})
    ensures WorldOk(w') && forall i :: i in s.procs && i != pid ==> ProcOk(w', s.procs[i])
  {
    hide FateOf, Sound, Total;
    var w, p := s.world, s.procs[pid];
    assert ProcOk(w, p);
    assert Published(w', p.order);
    assert forall x :: x != p.order ==> Published(w', x) == Published(w, x);
    assert forall x, v :: Decided(w, x, v) ==> Decided(w', x, v);
    assert forall x, v :: x != p.order ==> Decided(w', x, v) == Decided(w, x, v);
    assert forall x, k :: LineFate(w', x, k) == LineFate(w, x, k);
    forall x | x in w'.orders ensures OrderOk(w', x) {
      assert OrderOk(w, x);
      forall i | 0 <= i < |w.orders[x].lines| && (x == p.order || Published(w, x))
        ensures LineOk(w', x, w.orders[x].lines[i])
      {
        assert x != p.order ==> LineOk(w, x, w.orders[x].lines[i]);
      }
      assert forall v :: Closed(w, x, v) ==> Closed(w', x, v);
    }
    forall x | !Published(w', x) ensures UnpublishedOk(w', x) { assert UnpublishedOk(w, x); }
    forall x | x in w'.payments ensures PaymentOk(w', x) { assert PaymentOk(w, x); }
    forall m | m in w'.sent ensures MessageOk(w', m) { assert m in w.sent ==> MessageOk(w, m); }
    forall i | i in s.procs && i != pid ensures ProcOk(w', s.procs[i]) { assert ProcOk(w, s.procs[i]); }
  }

  /** An outcome is published that the payments table bears out. */
  lemma PublishKeepsAll(s: State, w': World, m: Message)
    requires Inv(s) && w' == s.world.(sent := s.world.sent + {m})
    requires !m.OrderCreated? && MessageOk(s.world, m)
    ensures WorldOk(w') && forall i :: i in s.procs ==> ProcOk(w', s.procs[i])
  {
    hide FateOf, Sound, Total;
    var w := s.world;
    assert forall x :: Published(w', x) == Published(w, x);
    assert forall x, v :: Decided(w', x, v) == Decided(w, x, v);
    assert forall x, k :: LineFate(w', x, k) == LineFate(w, x, k);
    forall x | x in w'.orders ensures OrderOk(w', x) {
      assert OrderOk(w, x);
      if Published(w, x) {
        forall i | 0 <= i < |w.orders[x].lines|
          ensures LineOk(w', x, w.orders[x].lines[i])
        {
          assert LineOk(w, x, w.orders[x].lines[i]);
        }
        assert forall v :: Closed(w, x, v) ==> Closed(w', x, v);
      }
    }
    forall x | !Published(w', x) ensures UnpublishedOk(w', x) { assert UnpublishedOk(w, x); }
    forall x | x in w'.payments ensures PaymentOk(w', x) { assert PaymentOk(w, x); }
    forall x | x in w'.sent ensures MessageOk(w', x) { assert x in w.sent ==> MessageOk(w, x); }
    forall i | i in s.procs ensures ProcOk(w', s.procs[i]) { assert ProcOk(w, s.procs[i]); }
  }

  /** The processor answers a run. */
  lemma AnswerKeepsAll(s: State, w': World, x: Answer)
    requires Inv(s) && w' == s.world.(answers := s.world.answers + [x])
    ensures WorldOk(w') && forall i :: i in s.procs ==> ProcOk(w', s.procs[i])
  {
    hide FateOf, Sound, Total;
    var w := s.world;
    assert forall i :: 0 <= i < |w.answers| ==> w'.answers[i] == w.answers[i];
    assert forall p :: Backed(w, p) ==> Backed(w', p);
    hide Backed;
    assert forall o :: Published(w', o) == Published(w, o);
    assert forall o, v :: Decided(w', o, v) == Decided(w, o, v);
    assert forall o, p :: LineFate(w', o, p) == LineFate(w, o, p);
    forall o | o in w'.orders ensures OrderOk(w', o) {
      assert OrderOk(w, o);
      if Published(w, o) {
        forall i | 0 <= i < |w.orders[o].lines|
          ensures LineOk(w', o, w.orders[o].lines[i])
        {
          assert LineOk(w, o, w.orders[o].lines[i]);
        }
        assert forall v :: Closed(w, o, v) ==> Closed(w', o, v);
        assert forall v :: Explained(w, o, v) ==> Explained(w', o, v);
      }
    }
    forall o | !Published(w', o) ensures UnpublishedOk(w', o) { assert UnpublishedOk(w, o); }
    forall o | o in w'.payments ensures PaymentOk(w', o) { assert PaymentOk(w, o); }
    forall m | m in w'.sent ensures MessageOk(w', m) { assert MessageOk(w, m); }
    forall i | i in s.procs ensures ProcOk(w', s.procs[i]) { assert ProcOk(w, s.procs[i]); }
  }

  /** A payments row is inserted for an order that has none. */
  lemma InsertPaymentKeepsAll(s: State, w': World, p: Payment)
    requires Inv(s) && p.order !in s.world.payments
    requires w' == s.world.(payments := s.world.payments[p.order := p])
    requires Backed(s.world, p) && (p.viaSaga ==> OrderCreated(p.order, p.amount) in s.world.sent)
    ensures WorldOk(w') && forall i :: i in s.procs ==> ProcOk(w', s.procs[i])
  {
    hide FateOf, Sound, Total;
    var w := s.world;
    assert forall x :: Published(w', x) == Published(w, x);
    assert forall x, v :: Decided(w, x, v) ==> Decided(w', x, v);
    assert forall x, k :: LineFate(w', x, k) == LineFate(w, x, k);
    forall x | x in w'.orders ensures OrderOk(w', x) {
      assert OrderOk(w, x);
      if Published(w, x) {
        forall i | 0 <= i < |w.orders[x].lines|
          ensures LineOk(w', x, w.orders[x].lines[i])
        {
          assert LineOk(w, x, w.orders[x].lines[i]);
        }
        assert forall v :: Closed(w, x, v) ==> Closed(w', x, v);
      }
    }
    forall x | !Published(w', x) ensures UnpublishedOk(w', x) { assert UnpublishedOk(w, x); }
    forall x | x in w'.payments ensures PaymentOk(w', x) { assert x in w.payments ==> PaymentOk(w, x); }
    forall m | m in w'.sent ensures MessageOk(w', m) { assert MessageOk(w, m); }
    forall i | i in s.procs ensures ProcOk(w', s.procs[i]) { assert ProcOk(w, s.procs[i]); }
  }

  /** A settled order's status changes once, to the one its verdict calls for. */
  lemma CloseKeepsAll(s: State, w': World, o: OrderId, v: Verdict, reason: string)
    requires Inv(s) && o in s.world.orders && Closed(s.world, o, v)
    requires reason == ReasonFor(v, s.world.payments[o].reason)
    requires w' == s.world.(orders := UpdateStatus(s.world.orders, o, v, reason))
    ensures WorldOk(w') && forall i :: i in s.procs ==> ProcOk(w', s.procs[i])
    ensures w'.orders[o].status == StatusFor(v) && Decided(w', o, v)
  {
    hide FateOf, Sound, Total;
    var w := s.world;
    assert OrderOk(w, o);
    assert forall x :: Published(w', x) == Published(w, x);
    assert forall x, v :: Decided(w', x, v) == Decided(w, x, v);
    assert forall x, k :: LineFate(w', x, k) == LineFate(w, x, k);
    assert w.orders[o].status.Pending? || w.orders[o].status == StatusFor(v) by {
      if !w.orders[o].status.Pending? {
        var v' := if w.orders[o].status.Confirmed? then Succeeded else Failed;
        assert Closed(w, o, v');
      }
    }
    forall x | x in w'.orders ensures OrderOk(w', x) {
      assert OrderOk(w, x);
      if Published(w, x) {
        forall i | 0 <= i < |w.orders[x].lines|
          ensures LineOk(w', x, w.orders[x].lines[i])
        {
          assert LineOk(w, x, w.orders[x].lines[i]);
        }
        assert forall v :: Closed(w, x, v) ==> Closed(w', x, v);
      }
    }
    forall x | !Published(w', x) ensures UnpublishedOk(w', x) { assert UnpublishedOk(w, x); }
    forall x | x in w'.payments ensures PaymentOk(w', x) { assert PaymentOk(w, x); }
    forall m | m in w'.sent ensures MessageOk(w', m) { assert MessageOk(w, m); }
    forall i | i in s.procs ensures ProcOk(w', s.procs[i]) { assert ProcOk(w, s.procs[i]); }
  }
}
