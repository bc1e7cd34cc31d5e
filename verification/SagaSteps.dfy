/** Every step of every run keeps the joint invariant. */
module SagaSteps {
  import opened Catalog
  import opened Saga
  import opened SagaInvariant

  // ---- ORDER BY product_id ----

  /** Strictly by product id, so no product twice. */
  ghost predicate Rising(lines: seq<Line>) {
    forall i, j :: 0 <= i < j < |lines| ==> lines[i].product < lines[j].product
  }

  ghost predicate Below(lines: seq<Line>, bound: ProductId) {
    forall i :: 0 <= i < |lines| ==> lines[i].product < bound
  }

  /** Every line of a is a line of b. */
  ghost predicate Covers(a: seq<Line>, b: seq<Line>) {
    forall i :: 0 <= i < |a| ==> exists j :: 0 <= j < |b| && b[j] == a[i]
  }

  lemma TotalSnoc(lines: seq<Line>, line: Line)
    ensures Total(lines + [line]) == Total(lines) + line.price * line.units
  {
    assert (lines + [line])[..|lines|] == lines;
  }

  lemma {:induction false} InsertKeepsLines(lines: seq<Line>, line: Line)
    ensures multiset(InsertByProduct(lines, line)) == multiset(lines) + multiset{line}
    ensures Total(InsertByProduct(lines, line)) == Total(lines) + line.price * line.units
  {
    if lines == [] || lines[|lines| - 1].product <= line.product {
      TotalSnoc(lines, line);
    } else {
      var front, last := lines[..|lines| - 1], lines[|lines| - 1];
      InsertKeepsLines(front, line);
      TotalSnoc(InsertByProduct(front, line), last);
      assert lines == front + [last];
    }
  }

  lemma {:induction false} InsertBelow(lines: seq<Line>, line: Line, bound: ProductId)
    requires Below(lines, bound) && line.product < bound
    ensures Below(InsertByProduct(lines, line), bound)
  {
    if lines != [] {
      InsertBelow(lines[..|lines| - 1], line, bound);
    }
  }

  lemma {:induction false} InsertRises(lines: seq<Line>, line: Line)
    requires Rising(lines) && forall i :: 0 <= i < |lines| ==> lines[i].product != line.product
    ensures Rising(InsertByProduct(lines, line))
  {
    if lines != [] && lines[|lines| - 1].product > line.product {
      var front, last := lines[..|lines| - 1], lines[|lines| - 1];
      InsertRises(front, line);
      InsertBelow(front, line, last.product);
    }
  }

  lemma SameLines(a: seq<Line>, b: seq<Line>)
    requires multiset(a) == multiset(b)
    ensures Covers(a, b) && Covers(b, a)
  {
    assert forall i :: 0 <= i < |a| ==> a[i] in multiset(b);
    assert forall i :: 0 <= i < |b| ==> b[i] in multiset(a);
  }

  lemma {:induction false} SortingKeepsLines(lines: seq<Line>)
    ensures multiset(ByProduct(lines)) == multiset(lines)
    ensures Total(ByProduct(lines)) == Total(lines)
  {
    hide InsertByProduct, Total;
    if lines == [] {
      assert ByProduct(lines) == lines;
    } else {
      var front, last := lines[..|lines| - 1], lines[|lines| - 1];
      SortingKeepsLines(front);
      InsertKeepsLines(ByProduct(front), last);
      assert Total(lines) == Total(front) + last.price * last.units by {
        TotalSnoc(front, last);
        assert lines == front + [last];
      }
      assert multiset(lines) == multiset(front) + multiset{last} by { assert lines == front + [last]; }
    }
  }

  /** The rows come back in product order, the same lines with the same total. */
  lemma ByProductSorts(lines: seq<Line>)
    requires Distinct(lines)
    ensures Rising(ByProduct(lines))
    ensures Covers(ByProduct(lines), lines) && Covers(lines, ByProduct(lines))
    ensures Total(ByProduct(lines)) == Total(lines)
  {
    SortingKeepsLines(lines);
    SameLines(ByProduct(lines), lines);
    SortingRises(lines);
  }

  lemma {:induction false} SortingRises(lines: seq<Line>)
    requires Distinct(lines)
    ensures Rising(ByProduct(lines))
  {
    hide InsertByProduct;
    if lines != [] {
      var front, last := lines[..|lines| - 1], lines[|lines| - 1];
      var sorted := ByProduct(front);
      SortingRises(front);
      SortingKeepsLines(front);
      forall i | 0 <= i < |sorted|
        ensures sorted[i].product != last.product
      {
        assert sorted[i] in multiset(front);
      }
      InsertRises(sorted, last);
    }
  }

  // ---- createOrder ----

  lemma AcceptKeepsInv(s: State, pid: nat, o: OrderId, request: seq<Item>)
    requires Inv(s) && Enabled(s, Accept(pid, o, request))
    ensures Inv(Step(s, Accept(pid, o, request)))
  {
    hide FateOf, Sound;
    var w := s.world;
    var w' := w.(drawn := w.drawn + {o});
    DrawKeepsAll(s, w', o);
    assert o !in w.orders by { assert o in w.orders ==> OrderOk(w, o); }
    assert CreatorOk(w', Pricing(o, request, [], 0)) by {
      assert forall product :: LineFate(w', o, product) == FateOf(w.catalog, Key(o, product));
    }
    forall i | i in s.procs && Creator(s.procs[i])
      ensures s.procs[i].order != o
    {
      assert ProcOk(w, s.procs[i]);
    }
    WithOk(s, w', pid, Pricing(o, request, [], 0));
  }

  lemma PriceKeepsInv(s: State, pid: nat)
    requires Inv(s) && Enabled(s, PriceLine(pid))
    ensures Inv(Step(s, PriceLine(pid)))
  {
    hide LineFate, WorldOk, CreatorsDiffer, Published, Total;
    var w, p := s.world, s.procs[pid];
    assert ProcOk(w, p);
    var item := p.request[|p.lines|];
    if item.product !in w.catalog.products {
      SameCreator(s, w, pid, Undoing(p.order, [], 0, 0, {}));
    } else {
      var line := Line(item.product, item.units, w.catalog.products[item.product].price);
      var lines := p.lines + [line];
      TotalSnoc(p.lines, line);
      if |lines| < |p.request| {
        SameCreator(s, w, pid, Pricing(p.order, p.request, lines, Total(lines)));
      } else {
        SameCreator(s, w, pid, Reserving(p.order, lines, Total(lines), 0));
      }
    }
  }

  /** The catalog moved one line of the order this run is creating. */
  lemma CreatorMoves(s: State, pid: nat, w': World, k: Key, p': Proc)
    requires Inv(s) && pid in s.procs && Creator(s.procs[pid]) && k.order == s.procs[pid].order
    requires LineMoved(s.world, w', k)
    requires Creator(p') && p'.order == k.order && CreatorOk(w', p')
    ensures Inv(With(s, w', pid, p'))
  {
    hide FateOf, Sound, Total;
    MoveKeepsWorld(s.world, w', k);
    forall i | i in s.procs && i != pid ensures ProcOk(w', s.procs[i]) {
      MoveKeepsProc(s.world, w', k, s.procs[i]);
    }
    SameCreator(s, w', pid, p');
  }

  /** The order's other lines stand as before, and nothing but stock moved. */
  ghost predicate OneLineMoved(w: World, w': World, o: OrderId, product: ProductId) {
    && w'.orders == w.orders && w'.drawn == w.drawn && (Published(w', o) == Published(w, o))
    && forall x :: x != product ==> LineFate(w', o, x) == LineFate(w, o, x)
  }

  lemma MovesOneLine(w: World, w': World, k: Key)
    requires w' == w.(catalog := w'.catalog) && OnlyMoved(w.catalog, w'.catalog, k)
    ensures OneLineMoved(w, w', k.order, k.product)
  {
    hide FateOf;
  }

  lemma ReservedOk(w: World, w': World, p: Proc)
    requires p.Reserving? && CreatorOk(w, p) && p.done < |p.lines|
    requires var line := p.lines[p.done];
             OneLineMoved(w, w', p.order, line.product) && LineFate(w', p.order, line.product) == Held(line.units)
    ensures CreatorOk(w', Reserving(p.order, p.lines, p.total, p.done + 1))
    ensures CreatorOk(w', Undoing(p.order, p.lines, p.done, 0, {p.lines[p.done].product}))
  {
    hide LineFate, Published, Total;
  }

  lemma UnreservedOk(w: World, p: Proc)
    requires p.Reserving? && CreatorOk(w, p)
    ensures CreatorOk(w, Undoing(p.order, p.lines, p.done, 0, {}))
  {
    hide LineFate, Published, Total;
  }

  lemma ReserveKeepsInv(s: State, pid: nat, reply: Reply)
    requires Inv(s) && Enabled(s, ReserveLine(pid, reply))
    ensures Inv(Step(s, ReserveLine(pid, reply)))
  {
    hide FateOf, Sound, OrderOk, CreatorsDiffer, Reserve;
    var w, p := s.world, s.procs[pid];
    assert ProcOk(w, p);
    var line := p.lines[p.done];
    var k := Key(p.order, line.product);
    var (t, outcome) := Reserve(w.catalog, k, line.units);
    var w' := w.(catalog := t);
    UnreservedOk(w, p);
    assert LineFate(w, p.order, line.product).Untouched? by {
      assert !Lists(p.lines, p.done, line.product);
    }
    ReserveMoves(w.catalog, k, line.units);
    ReserveStaysSound(w.catalog, k, line.units);
    if reply.Unreached? || !outcome.Done? {
      assert w' == w || reply.Unreached?;
      SameCreator(s, w, pid, Undoing(p.order, p.lines, p.done, 0, {}));
    } else {
      MovesOneLine(w, w', k);
      ReservedOk(w, w', p);
      assert LineMoved(w, w', k);
      CreatorMoves(s, pid, w', k,
                   if reply.Lost? then Undoing(p.order, p.lines, p.done, 0, {line.product})
                   else Reserving(p.order, p.lines, p.total, p.done + 1));
    }
  }

  lemma UndoneOk(w: World, w': World, p: Proc)
    requires p.Undoing? && CreatorOk(w, p) && p.done < p.held
    requires var product := p.lines[p.done].product;
             OneLineMoved(w, w', p.order, product) && LineFate(w', p.order, product).GivenBack?
    ensures CreatorOk(w', Undoing(p.order, p.lines, p.held, p.done + 1, p.stranded))
  {
    hide LineFate, Published;
    ListsSnoc(p.lines, p.done);
  }

  lemma NotUndoneOk(w: World, p: Proc)
    requires p.Undoing? && CreatorOk(w, p) && p.done < p.held
    ensures CreatorOk(w, Undoing(p.order, p.lines, p.held, p.done + 1, p.stranded + {p.lines[p.done].product}))
  {
    hide LineFate, Published;
    ListsSnoc(p.lines, p.done);
  }

  lemma ListsSnoc(lines: seq<Line>, n: nat)
    requires n < |lines|
    ensures forall x :: Lists(lines, n + 1, x) <==> Lists(lines, n, x) || x == lines[n].product
  {
  }

  lemma UndoKeepsInv(s: State, pid: nat, reached: bool)
    requires Inv(s) && Enabled(s, UndoLine(pid, reached))
    ensures Inv(Step(s, UndoLine(pid, reached)))
  {
    hide FateOf, Sound, OrderOk, CreatorsDiffer;
    var w, p := s.world, s.procs[pid];
    assert ProcOk(w, p);
    var product := p.lines[p.done].product;
    var k := Key(p.order, product);
    assert LineFate(w, p.order, product).Held?;
    if reached {
      HeldHasProduct(w.catalog, k);
      SettleMoves(w.catalog, Failed, k);
      SettleStaysSound(w.catalog, k);
      var w' := w.(catalog := Release(w.catalog, k).0);
      assert LineMoved(w, w', k);
      MovesOneLine(w, w', k);
      UndoneOk(w, w', p);
      CreatorMoves(s, pid, w', k, Undoing(p.order, p.lines, p.held, p.done + 1, p.stranded));
    } else {
      NotUndoneOk(w, p);
      SameCreator(s, w, pid, Undoing(p.order, p.lines, p.held, p.done + 1, p.stranded + {product}));
    }
  }

  lemma AllHeldInAnyOrder(w: World, o: OrderId, a: seq<Line>, b: seq<Line>)
    requires AllHeld(w, o, a) && Covers(a, b) && Covers(b, a)
    ensures AllHeld(w, o, b)
  {
    hide LineFate;
    forall product | !Lists(b, |b|, product)
      ensures LineFate(w, o, product).Untouched?
    {
      assert !Lists(a, |a|, product);
    }
  }

  /** The rows as stored list the lines that were reserved. */
  lemma RecordedOk(w: World, w': World, p: Proc)
    requires p.Reserving? && CreatorOk(w, p) && p.done == |p.lines|
    requires w' == w.(orders := w.orders[p.order := Order(Pending, p.total, "", ByProduct(p.lines))])
    requires !Published(w', p.order)
    ensures CreatorOk(w', Announcing(p.order, p.total))
    ensures CreatorOk(w', Undoing(p.order, p.lines, |p.lines|, 0, {}))
  {
    hide FateOf, Total, ByProduct, Published, Covers, CreatorOk, AllHeld;
    assert forall x :: LineFate(w', p.order, x) == LineFate(w, p.order, x);
    hide LineFate;
    UnreservedOk(w, p);
    UndoingStaysOk(w, w', Undoing(p.order, p.lines, |p.lines|, 0, {}));
    ReservedAll(w, w', p);
    ByProductSorts(p.lines);
    AllHeldInAnyOrder(w', p.order, p.lines, ByProduct(p.lines));
    AnnouncingOk(w', p.order);
  }

  lemma AnnouncingOk(w: World, o: OrderId)
    requires o in w.orders && o in w.drawn && !Published(w, o) && AllHeld(w, o, w.orders[o].lines)
    ensures CreatorOk(w, Announcing(o, w.orders[o].total))
  {
    hide AllHeld, Published;
  }

  lemma ReservedAll(w: World, w': World, p: Proc)
    requires p.Reserving? && CreatorOk(w, p) && p.done == |p.lines|
    requires forall x :: LineFate(w', p.order, x) == LineFate(w, p.order, x)
    ensures AllHeld(w', p.order, p.lines) && Distinct(p.lines) && p.order in w.drawn
  {
    hide LineFate, Published, Total;
  }

  lemma UndoingStaysOk(w: World, w': World, p: Proc)
    requires p.Undoing? && CreatorOk(w, p)
    requires w'.drawn == w.drawn && !Published(w', p.order)
    requires forall x :: LineFate(w', p.order, x) == LineFate(w, p.order, x)
    ensures CreatorOk(w', p)
  {
    hide LineFate, Published, Lists;
  }

  lemma RecordKeepsInv(s: State, pid: nat, reply: Reply)
    requires Inv(s) && Enabled(s, Record(pid, reply))
    ensures Inv(Step(s, Record(pid, reply)))
  {
    hide FateOf, WorldOk, CreatorsDiffer, Total, ByProduct;
    var w, p := s.world, s.procs[pid];
    assert ProcOk(w, p);
    UnreservedOk(w, p);
    if reply.Unreached? {
      SameCreator(s, w, pid, Undoing(p.order, p.lines, |p.lines|, 0, {}));
    } else {
      ByProductSorts(p.lines);
      var order := Order(Pending, p.total, "", ByProduct(p.lines));
      var w' := w.(orders := w.orders[p.order := order]);
      InsertOrderKeepsAll(s, w', pid, p.order, order);
      RecordedOk(w, w', p);
      SameCreator(s, w', pid,
                  if reply.Lost? then Undoing(p.order, p.lines, |p.lines|, 0, {}) else Announcing(p.order, p.total));
    }
  }

  lemma AnnounceKeepsInv(s: State, pid: nat, reply: Reply)
    requires Inv(s) && Enabled(s, Announce(pid, reply))
    ensures Inv(Step(s, Announce(pid, reply)))
  {
    hide WorldOk, ProcOk;
    var w, p := s.world, s.procs[pid];
    if reply.Unreached? {
      WithoutOk(s, w, pid);
    } else {
      var w' := w.(sent := w.sent + {OrderCreated(p.order, p.total)});
      AnnounceKeepsAll(s, w', pid);
      WithoutOk(s, w', pid);
    }
  }

  // ---- Payment ----

  lemma DeliverKeepsInv(s: State, pid: nat, m: Message)
    requires Inv(s) && Enabled(s, Deliver(pid, m))
    ensures Inv(Step(s, Deliver(pid, m)))
  {
    hide FateOf, Sound, Total;
    assert MessageOk(s.world, m);
    assert m.order in s.world.payments ==> PaymentOk(s.world, m.order);
    WithOk(s, s.world, pid, Receive(m));
  }

  /** What the payments table holds may be reported. */
  lemma ReportOk(w: World, o: OrderId, viaSaga: bool)
    requires WorldOk(w) && o in w.payments && (viaSaga ==> Published(w, o))
    ensures ProcOk(w, Report(w.payments[o], viaSaga))
  {
    assert PaymentOk(w, o);
  }

  lemma CreatedIsPublished(w: World, o: OrderId, amount: int)
    requires WorldOk(w) && OrderCreated(o, amount) in w.sent
    ensures Published(w, o)
  {
    hide Sound, FateOf, OrderOk, UnpublishedOk;
    assert MessageOk(w, OrderCreated(o, amount));
  }

  lemma LookUpKeepsInv(s: State, pid: nat)
    requires Inv(s) && Enabled(s, LookUp(pid))
    ensures Inv(Step(s, LookUp(pid)))
  {
    hide WorldOk, CreatorsDiffer;
    var w, p := s.world, s.procs[pid];
    assert ProcOk(w, p);
    if p.viaSaga {
      CreatedIsPublished(w, p.order, p.amount);
    }
    if p.order in w.payments {
      ReportOk(w, p.order, p.viaSaga);
    }
    WithOk(s, w, pid, DoLookUp(s, pid, p).procs[pid]);
  }

  lemma ChargeKeepsInv(s: State, pid: nat, v: Verdict, reason: string)
    requires Inv(s) && Enabled(s, Charge(pid, v, reason))
    ensures Inv(Step(s, Charge(pid, v, reason)))
  {
    hide WorldOk, CreatorsDiffer;
    var w, p := s.world, s.procs[pid];
    assert ProcOk(w, p);
    var why := if v.Succeeded? then "" else reason;
    var answer := Answer(pid, p.order, p.amount, v, why);
    var w' := w.(answers := w.answers + [answer]);
    AnswerKeepsAll(s, w', answer);
    assert Backed(w', Payment(p.order, p.amount, v, why, p.viaSaga)) by {
      assert w'.answers[|w.answers|] == answer;
    }
    WithOk(s, w', pid, Storing(Payment(p.order, p.amount, v, why, p.viaSaga)));
  }

  lemma InsertKeepsInv(s: State, pid: nat, reply: Reply)
    requires Inv(s) && Enabled(s, Insert(pid, reply))
    ensures Inv(Step(s, Insert(pid, reply)))
  {
    hide WorldOk, CreatorsDiffer;
    var w, p := s.world, s.procs[pid];
    var payment := p.payment;
    var o := payment.order;
    assert ProcOk(w, p);
    if payment.viaSaga {
      CreatedIsPublished(w, o, payment.amount);
    }
    if reply.Unreached? || (o in w.payments && reply.Lost?) {
      WithoutOk(s, w, pid);
    } else if o in w.payments {
      WithOk(s, w, pid, Reloading(o, payment.viaSaga));
    } else {
      var w' := w.(payments := w.payments[o := payment]);
      InsertPaymentKeepsAll(s, w', payment);
      if reply.Lost? {
        WithoutOk(s, w', pid);
      } else {
        assert payment.viaSaga ==> Published(w', o);
        ReportOk(w', o, payment.viaSaga);
        WithOk(s, w', pid, Report(payment, payment.viaSaga));
      }
    }
  }

  lemma ReloadKeepsInv(s: State, pid: nat)
    requires Inv(s) && Enabled(s, Reload(pid))
    ensures Inv(Step(s, Reload(pid)))
  {
    hide WorldOk, CreatorsDiffer;
    var w, p := s.world, s.procs[pid];
    assert ProcOk(w, p);
    ReportOk(w, p.order, p.viaSaga);
    WithOk(s, w, pid, Report(w.payments[p.order], p.viaSaga));
  }

  lemma PublishKeepsInv(s: State, pid: nat, reply: Reply)
    requires Inv(s) && Enabled(s, Publish(pid, reply))
    ensures Inv(Step(s, Publish(pid, reply)))
  {
    hide FateOf, Sound, Total;
    var w, p := s.world, s.procs[pid];
    assert ProcOk(w, p);
    if reply.Unreached? {
      WithoutOk(s, w, pid);
    } else {
      var m := OutcomeOf(p.payment);
      var w' := w.(sent := w.sent + {m});
      PublishKeepsAll(s, w', m);
      WithoutOk(s, w', pid);
    }
  }

  // ---- The outcome handlers ----

  lemma LoadKeepsInv(s: State, pid: nat)
    requires Inv(s) && Enabled(s, Load(pid))
    ensures Inv(Step(s, Load(pid)))
  {
    hide WorldOk, CreatorsDiffer, LineFate;
    var w, p := s.world, s.procs[pid];
    assert ProcOk(w, p);
    WithOk(s, w, pid, Settling(p.order, w.orders[p.order].lines, p.verdict, p.reason, 0));
  }

  /** What settling one line of a decided order does, whoever does it. */
  lemma SettlingMoves(w: World, o: OrderId, v: Verdict, i: nat)
    requires WorldOk(w) && Decided(w, o, v) && i < |w.orders[o].lines|
    ensures var line := w.orders[o].lines[i];
            var k := Key(o, line.product);
            var w' := w.(catalog := Settle(w.catalog, v, k).0);
            Settle(w.catalog, v, k).1.Done? && LineMoved(w, w', k) && LineSettled(w', o, line, v)
  {
    hide Sound, Total, FateOf;
    var line := w.orders[o].lines[i];
    var k := Key(o, line.product);
    assert OrderOk(w, o) && LineOk(w, o, line);
    assert forall v' :: Decided(w, o, v') ==> v' == v;
    MovedHasProduct(w.catalog, k);
    SettleMoves(w.catalog, v, k);
    SettleStaysSound(w.catalog, k);
  }

  /** What is known of a settling run, and all there is to know. */
  lemma SettlingIs(w: World, p: Proc)
    requires p.Settling?
    ensures ProcOk(w, p) <==>
            && Decided(w, p.order, p.verdict) && p.reason == w.payments[p.order].reason
            && p.lines == w.orders[p.order].lines && p.done <= |p.lines|
            && forall i :: 0 <= i < p.done ==> LineSettled(w, p.order, p.lines[i], p.verdict)
  {
  }

  lemma PublishedMoves(s: State, w': World, k: Key)
    requires Inv(s) && LineMoved(s.world, w', k) && Published(s.world, k.order)
    ensures WorldOk(w') && forall i :: i in s.procs ==> ProcOk(w', s.procs[i])
  {
    hide WorldOk, LineMoved, CreatorsDiffer;
    MoveKeepsWorld(s.world, w', k);
    forall i | i in s.procs ensures ProcOk(w', s.procs[i]) {
      assert ProcOk(s.world, s.procs[i]);
      MoveKeepsProc(s.world, w', k, s.procs[i]);
    }
  }

  lemma SettleKeepsInv(s: State, pid: nat, reply: Reply)
    requires Inv(s) && Enabled(s, SettleLine(pid, reply))
    ensures Inv(Step(s, SettleLine(pid, reply)))
  {
    hide LineSettled, WorldOk, ProcOk, CreatorsDiffer, LineMoved, Settle;
    var w, p := s.world, s.procs[pid];
    SettlingIs(w, p);
    var line := p.lines[p.done];
    var k := Key(p.order, line.product);
    SettlingMoves(w, p.order, p.verdict, p.done);
    var w' := w.(catalog := Settle(w.catalog, p.verdict, k).0);
    if reply.Unreached? {
      WithoutOk(s, w, pid);
    } else {
      PublishedMoves(s, w', k);
      if reply.Lost? {
        WithoutOk(s, w', pid);
      } else {
        var p' := Settling(p.order, p.lines, p.verdict, p.reason, p.done + 1);
        SettlingIs(w', p);
        SettlingIs(w', p');
        WithOk(s, w', pid, p');
      }
    }
  }

  lemma FinishedOk(w: World, o: OrderId, v: Verdict)
    requires Decided(w, o, v) && w.orders[o].status == StatusFor(v)
    ensures ProcOk(w, Finished(o, v))
  {
  }

  lemma CloseKeepsInv(s: State, pid: nat, reply: Reply)
    requires Inv(s) && Enabled(s, Close(pid, reply))
    ensures Inv(Step(s, Close(pid, reply)))
  {
    hide LineSettled, WorldOk, ProcOk, CreatorsDiffer, UpdateStatus;
    var w, p := s.world, s.procs[pid];
    SettlingIs(w, p);
    assert Closed(w, p.order, p.verdict);
    var reason := ReasonFor(p.verdict, p.reason);
    var w' := w.(orders := UpdateStatus(w.orders, p.order, p.verdict, reason));
    if reply.Unreached? {
      WithoutOk(s, w, pid);
    } else {
      CloseKeepsAll(s, w', p.order, p.verdict, reason);
      if reply.Lost? {
        WithoutOk(s, w', pid);
      } else {
        assert ProcOk(w', Finished(p.order, p.verdict)) by { FinishedOk(w', p.order, p.verdict); }
        WithOk(s, w', pid, Finished(p.order, p.verdict));
      }
    }
  }

  // ---- All together ----

  lemma StockKeepsInv(s: State, r: Request)
    requires Inv(s) && (r.AddStockRequest? || r.CreateRequest?)
    ensures Inv(s.(world := s.world.(catalog := Serve(s.world.catalog, r).0)))
  {
    hide FateOf, Sound, Total;
    var t := s.world.catalog;
    ServeStaysSound(t, r);
    if r.AddStockRequest? {
      StockingMovesNothing(t, r.product, r.delta, 0);
    } else {
      StockingMovesNothing(t, r.product, r.price, r.stock);
    }
    StockKeepsAll(s, Serve(t, r).0);
  }

  lemma PerformKeepsInv(s: State, a: Action)
    requires Inv(s)
    ensures Inv(Perform(s, a))
  {
    hide Inv, Step;
    if Enabled(s, a) {
      StepKeepsInv(s, a);
    }
  }

  lemma StepKeepsInv(s: State, a: Action)
    requires Inv(s) && Enabled(s, a)
    ensures Inv(Step(s, a))
  {
    hide Inv;
    match a
    case Restock(product, delta) => StockKeepsInv(s, AddStockRequest(product, delta));
    case NewProduct(product, price, stock) => StockKeepsInv(s, CreateRequest(product, price, stock));
    case Accept(pid, o, request) => AcceptKeepsInv(s, pid, o, request);
    case PriceLine(pid) => PriceKeepsInv(s, pid);
    case ReserveLine(pid, reply) => ReserveKeepsInv(s, pid, reply);
    case UndoLine(pid, reached) => UndoKeepsInv(s, pid, reached);
    case Record(pid, reply) => RecordKeepsInv(s, pid, reply);
    case Announce(pid, reply) => AnnounceKeepsInv(s, pid, reply);
    case Deliver(pid, m) => DeliverKeepsInv(s, pid, m);
    case HttpCharge(pid, o, amount) => HttpChargeKeepsInv(s, pid, o, amount);
    case LookUp(pid) => LookUpKeepsInv(s, pid);
    case Charge(pid, v, reason) => ChargeKeepsInv(s, pid, v, reason);
    case Insert(pid, reply) => InsertKeepsInv(s, pid, reply);
    case Reload(pid) => ReloadKeepsInv(s, pid);
    case Publish(pid, reply) => PublishKeepsInv(s, pid, reply);
    case Load(pid) => LoadKeepsInv(s, pid);
    case SettleLine(pid, reply) => SettleKeepsInv(s, pid, reply);
    case Close(pid, reply) => CloseKeepsInv(s, pid, reply);
    case Crash(pid) => CrashKeepsInv(s, pid);
  }

  lemma HttpChargeKeepsInv(s: State, pid: nat, o: OrderId, amount: int)
    requires Inv(s) && Enabled(s, HttpCharge(pid, o, amount))
    ensures Inv(Step(s, HttpCharge(pid, o, amount)))
  {
    hide WorldOk;
    WithOk(s, s.world, pid, Looking(o, amount, false));
  }

  lemma CrashKeepsInv(s: State, pid: nat)
    requires Inv(s) && Enabled(s, Crash(pid))
    ensures Inv(Step(s, Crash(pid)))
  {
    hide WorldOk, ProcOk;
    WithoutOk(s, s.world, pid);
  }

  lemma {:induction false} RunKeepsInv(s: State, actions: seq<Action>)
    requires Inv(s)
    ensures Inv(Run(s, actions))
  {
    hide Inv, Perform;
    if actions != [] {
      RunKeepsInv(s, actions[..|actions| - 1]);
      PerformKeepsInv(Run(s, actions[..|actions| - 1]), actions[|actions| - 1]);
    }
  }
}
