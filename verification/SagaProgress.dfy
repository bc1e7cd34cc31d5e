/** Compensation and confirmation make progress: what is left to do for an announced
    order never grows, a handler run that ends well leaves nothing, and from every
    reachable state the order can still be settled. */
module SagaProgress {
  import opened Catalog
  import opened Saga
  import opened SagaInvariant
  import opened SagaSteps
  import opened SagaTheorems

  ghost function LinesHeld(w: World, o: OrderId, lines: seq<Line>): nat {
    if lines == [] then 0
    else
      var n := |lines| - 1;
      LinesHeld(w, o, lines[..n]) + (if LineFate(w, o, lines[n].product).Held? then 1 else 0)
  }

  /** The lines still held, plus one while the order is pending. */
  ghost function Outstanding(w: World, o: OrderId): nat
    requires o in w.orders
  {
    LinesHeld(w, o, w.orders[o].lines) + (if w.orders[o].status.Pending? then 1 else 0)
  }

  lemma {:induction false} FewerHeld(w: World, w': World, o: OrderId, lines: seq<Line>)
    requires forall i :: 0 <= i < |lines| && LineFate(w', o, lines[i].product).Held? ==>
               LineFate(w, o, lines[i].product).Held?
    ensures LinesHeld(w', o, lines) <= LinesHeld(w, o, lines)
  {
    hide LineFate;
    if lines != [] {
      FewerHeld(w, w', o, lines[..|lines| - 1]);
    }
  }

  lemma {:induction false} NoneHeld(w: World, o: OrderId, lines: seq<Line>)
    ensures LinesHeld(w, o, lines) == 0 <==> forall i :: 0 <= i < |lines| ==> !LineFate(w, o, lines[i].product).Held?
  {
    hide LineFate;
    if lines != [] {
      var front := lines[..|lines| - 1];
      NoneHeld(w, o, front);
      assert forall i :: 0 <= i < |front| ==> front[i] == lines[i];
    }
  }

  // ---- What one action can do to a line of an announced order ----

  /** Such a line moves only from held to settled, by the order's verdict. */
  ghost predicate SettlesOnly(w: World, t': Tables, k: Key) {
    var fate, fate' := FateOf(w.catalog, k), FateOf(t', k);
    fate' == fate || (fate.Held? && exists v :: Decided(w, k.order, v) && fate' == SettledFate(v, fate.units))
  }

  ghost predicate AllSettleOnly(w: World, t': Tables) {
    forall k: Key :: Published(w, k.order) ==> SettlesOnly(w, t', k)
  }

  lemma ReserveSettlesOnly(s: State, pid: nat)
    requires Inv(s) && pid in s.procs && s.procs[pid].Reserving? && s.procs[pid].done < |s.procs[pid].lines|
    ensures var p := s.procs[pid];
            var line := p.lines[p.done];
            AllSettleOnly(s.world, Reserve(s.world.catalog, Key(p.order, line.product), line.units).0)
  {
    hide FateOf, WorldOk, CreatorsDiffer, Reserve;
    var p := s.procs[pid];
    assert ProcOk(s.world, p);
    var line := p.lines[p.done];
    assert LineFate(s.world, p.order, line.product).Untouched? by {
      assert !Lists(p.lines, p.done, line.product);
    }
    ReserveMoves(s.world.catalog, Key(p.order, line.product), line.units);
  }

  lemma UndoSettlesOnly(s: State, pid: nat)
    requires Inv(s) && pid in s.procs && s.procs[pid].Undoing? && s.procs[pid].done < s.procs[pid].held
    ensures var p := s.procs[pid];
            AllSettleOnly(s.world, Release(s.world.catalog, Key(p.order, p.lines[p.done].product)).0)
  {
    hide FateOf, Sound, OrderOk, CreatorsDiffer;
    var p := s.procs[pid];
    assert ProcOk(s.world, p);
    var k := Key(p.order, p.lines[p.done].product);
    assert LineFate(s.world, p.order, p.lines[p.done].product).Held?;
    HeldHasProduct(s.world.catalog, k);
    SettleMoves(s.world.catalog, Failed, k);
  }

  lemma SettleSettlesOnly(s: State, pid: nat)
    requires Inv(s) && pid in s.procs && s.procs[pid].Settling? && s.procs[pid].done < |s.procs[pid].lines|
    ensures var p := s.procs[pid];
            AllSettleOnly(s.world, Settle(s.world.catalog, p.verdict, Key(p.order, p.lines[p.done].product)).0)
  {
    hide FateOf, Sound, OrderOk, CreatorsDiffer;
    var p := s.procs[pid];
    assert ProcOk(s.world, p);
    var k := Key(p.order, p.lines[p.done].product);
    LineIsRegular(s.world, p.order, k.product);
    if FateOf(s.world.catalog, k).Held? {
      HeldHasProduct(s.world.catalog, k);
    }
    SettleMoves(s.world.catalog, p.verdict, k);
  }

  lemma PerformSettlesOnly(s: State, a: Action)
    requires Inv(s)
    ensures AllSettleOnly(s.world, Perform(s, a).world.catalog)
  {
    hide Inv, FateOf, Reserve, Release, Settle, AddStock, CreateProduct;
    assert AllSettleOnly(s.world, s.world.catalog);
    if Enabled(s, a) {
      match a
      case ReserveLine(pid, _) => ReserveSettlesOnly(s, pid);
      case UndoLine(pid, _) => UndoSettlesOnly(s, pid);
      case SettleLine(pid, _) => SettleSettlesOnly(s, pid);
      case Restock(product, delta) => StockingMovesNothing(s.world.catalog, product, delta, 0);
      case NewProduct(product, price, stock) => StockingMovesNothing(s.world.catalog, product, price, stock);
      case _ =>
    }
  }

  // ---- Progress ----

  lemma OutstandingNeverRises(s: State, a: Action, o: OrderId)
    requires Inv(s) && Published(s.world, o)
    ensures o in Perform(s, a).world.orders
    ensures Outstanding(Perform(s, a).world, o) <= Outstanding(s.world, o)
  {
    hide Perform, FateOf, Inv;
    var w, w' := s.world, Perform(s, a).world;
    PerformExtends(s, a);
    PerformSettlesOnly(s, a);
    var lines := w.orders[o].lines;
    forall i | 0 <= i < |lines| && LineFate(w', o, lines[i].product).Held?
      ensures LineFate(w, o, lines[i].product).Held?
    {
      assert SettlesOnly(w, w'.catalog, Key(o, lines[i].product));
    }
    FewerHeld(w, w', o, lines);
  }

  lemma {:induction false} ProgressIsKept(s: State, actions: seq<Action>, o: OrderId)
    requires Inv(s) && Published(s.world, o)
    ensures Inv(Run(s, actions)) && Published(Run(s, actions).world, o)
    ensures Outstanding(Run(s, actions).world, o) <= Outstanding(s.world, o)
  {
    hide Perform, Inv, Outstanding;
    RunKeepsInv(s, actions);
    RunExtends(s, actions);
    if actions != [] {
      var front := actions[..|actions| - 1];
      ProgressIsKept(s, front, o);
      OutstandingNeverRises(Run(s, front), actions[|actions| - 1], o);
    }
  }

  /** Nothing is left to do exactly when the order has its final status. */
  lemma SettledIsFinal(w: World, o: OrderId)
    requires WorldOk(w) && Published(w, o)
    ensures Outstanding(w, o) == 0 <==> !w.orders[o].status.Pending?
  {
    hide Sound, FateOf, Total;
    assert OrderOk(w, o);
    var order := w.orders[o];
    NoneHeld(w, o, order.lines);
    if !order.status.Pending? {
      var v := if order.status.Confirmed? then Succeeded else Failed;
      assert Closed(w, o, v);
      forall i | 0 <= i < |order.lines|
        ensures !LineFate(w, o, order.lines[i].product).Held?
      {
        assert LineSettled(w, o, order.lines[i], v);
      }
    }
  }

  /** What is left to do for an announced order never grows, and a handler run for it
      that ends well leaves nothing, whatever happens after. */
  lemma HandlersMakeProgress(before: seq<Action>, after: seq<Action>, o: OrderId)
    requires Published(Run(EMPTY, before).world, o)
    ensures var s, s' := Run(EMPTY, before), Run(EMPTY, before + after);
            && Published(s'.world, o)
            && Outstanding(s'.world, o) <= Outstanding(s.world, o)
            && (forall i :: i in s.procs && s.procs[i].Finished? && s.procs[i].order == o ==>
                  Outstanding(s'.world, o) == 0)
  {
    hide Run, FateOf, Sound, Total, Outstanding;
    var s := Run(EMPTY, before);
    ReachedOk(before);
    RunAppend(EMPTY, before, after);
    ProgressIsKept(s, after, o);
    SettledIsFinal(s.world, o);
    forall i | i in s.procs && s.procs[i].Finished? && s.procs[i].order == o
      ensures Outstanding(s.world, o) == 0
    {
      assert ProcOk(s.world, s.procs[i]);
    }
  }

  /** Once nothing is left to do, the order and its lines never change again. */
  lemma SettledForGood(before: seq<Action>, after: seq<Action>, o: OrderId)
    requires Published(Run(EMPTY, before).world, o) && Outstanding(Run(EMPTY, before).world, o) == 0
    ensures var w, w' := Run(EMPTY, before).world, Run(EMPTY, before + after).world;
            && o in w'.orders && w'.orders[o] == w.orders[o]
            && forall p :: LineFate(w', o, p) == LineFate(w, o, p)
  {
    hide Run, FateOf, Inv;
    var s := Run(EMPTY, before);
    ReachedOk(before);
    RunAppend(EMPTY, before, after);
    RunExtends(s, after);
    SettledStays(s, after, o);
  }

  lemma {:induction false} SettledStays(s: State, actions: seq<Action>, o: OrderId)
    requires Inv(s) && Published(s.world, o) && Outstanding(s.world, o) == 0
    ensures forall p :: LineFate(Run(s, actions).world, o, p) == LineFate(s.world, o, p)
  {
    hide Inv, Perform, FateOf, Outstanding, Published;
    if actions != [] {
      var front, last := actions[..|actions| - 1], actions[|actions| - 1];
      SettledStays(s, front, o);
      ProgressIsKept(s, front, o);
      SettledStandsStill(Run(s, front), last, o);
    }
  }

  lemma SettledStandsStill(s: State, a: Action, o: OrderId)
    requires Inv(s) && Published(s.world, o) && Outstanding(s.world, o) == 0
    ensures forall p :: LineFate(Perform(s, a).world, o, p) == LineFate(s.world, o, p)
  {
    hide Perform, FateOf;
    PerformSettlesOnly(s, a);
    forall p
      ensures LineFate(Perform(s, a).world, o, p) == LineFate(s.world, o, p)
    {
      assert SettlesOnly(s.world, Perform(s, a).world.catalog, Key(o, p));
      SettledHoldsNothing(s.world, o, p);
    }
  }

  lemma SettledHoldsNothing(w: World, o: OrderId, p: ProductId)
    requires WorldOk(w) && Published(w, o) && Outstanding(w, o) == 0
    ensures !LineFate(w, o, p).Held?
  {
    hide FateOf, Sound, Total;
    var lines := w.orders[o].lines;
    NoneHeld(w, o, lines);
    assert OrderOk(w, o);
    if !Lists(lines, |lines|, p) {
      assert LineFate(w, o, p).Untouched?;
    }
  }

  /** A redelivered outcome is idle: its handler changes neither orders nor catalog. */
  lemma RedeliveryIsIdle(actions: seq<Action>, a: Action, pid: nat)
    requires var s := Run(EMPTY, actions);
             && pid in s.procs && (s.procs[pid].Loading? || s.procs[pid].Settling?)
             && Published(s.world, s.procs[pid].order) && Outstanding(s.world, s.procs[pid].order) == 0
    requires a.Load? || a.SettleLine? || a.Close? || a.Crash?
    requires a.pid == pid
    ensures var s := Run(EMPTY, actions);
            var w, w' := s.world, Perform(s, a).world;
            w'.orders == w.orders && w'.catalog == w.catalog
  {
    hide Run, FateOf, Sound, Total, Settle, Outstanding;
    ReachedOk(actions);
    var s := Run(EMPTY, actions);
    var p := s.procs[pid];
    SettledIsFinal(s.world, p.order);
    if a.SettleLine? && Enabled(s, a) {
      assert ProcOk(s.world, p);
      var k := Key(p.order, p.lines[p.done].product);
      SettledHoldsNothing(s.world, p.order, k.product);
      LineIsRegular(s.world, p.order, k.product);
      SettleMoves(s.world.catalog, p.verdict, k);
    }
  }

  // ---- No announced order is ever stuck ----

  /** The settling run may reach its end from here, undisturbed. */
  lemma {:induction false} LinesCanSettle(s: State, pid: nat) returns (actions: seq<Action>)
    requires Inv(s) && pid in s.procs && s.procs[pid].Settling?
    ensures var s', p := Run(s, actions), s.procs[pid];
            && Published(s'.world, p.order)
            && Outstanding(s'.world, p.order) == 0
            && s'.world.orders[p.order].status == StatusFor(p.verdict)
    decreases |s.procs[pid].lines| - s.procs[pid].done
  {
    hide FateOf, Outstanding, WorldOk, CreatorsDiffer, Perform;
    var p := s.procs[pid];
    assert ProcOk(s.world, p);
    var a := if p.done < |p.lines| then SettleLine(pid, Answered) else Close(pid, Answered);
    var next := Perform(s, a);
    PerformKeepsInv(s, a);
    SettlingGoesOn(s, pid);
    RunOne(s, a);
    if p.done < |p.lines| {
      var rest := LinesCanSettle(next, pid);
      RunAppend(s, [a], rest);
      actions := [a] + rest;
    } else {
      assert ProcOk(next.world, next.procs[pid]);
      SettledIsFinal(next.world, p.order);
      actions := [a];
    }
  }

  lemma RunOne(s: State, a: Action)
    ensures Run(s, [a]) == Perform(s, a)
  {
    assert [a][..0] == [];
  }

  /** An answered step takes a settling run one line further, or to its end. */
  lemma SettlingGoesOn(s: State, pid: nat)
    requires Inv(s) && pid in s.procs && s.procs[pid].Settling?
    ensures var p := s.procs[pid];
            if p.done < |p.lines| then
              var next := Perform(s, SettleLine(pid, Answered));
              pid in next.procs && next.procs[pid] == Settling(p.order, p.lines, p.verdict, p.reason, p.done + 1)
            else
              var next := Perform(s, Close(pid, Answered));
              pid in next.procs && next.procs[pid] == Finished(p.order, p.verdict)
  {
    hide FateOf, WorldOk, CreatorsDiffer, Settle;
    var p := s.procs[pid];
    assert ProcOk(s.world, p);
    if p.done < |p.lines| {
      SettlingMoves(s.world, p.order, p.verdict, p.done);
    }
  }

  ghost function FreshPid(procs: map<nat, Proc>): (pid: nat)
    ensures pid !in procs
  {
    Above(procs.Keys);
    var pid :| pid !in procs;
    pid
  }

  lemma {:induction false} Above(pids: set<nat>)
    ensures exists pid: nat :: pid !in pids && forall i :: i in pids ==> i < pid
  {
    if pids == {} {
      assert 0 !in pids;
    } else {
      var x :| x in pids;
      Above(pids - {x});
      var y: nat :| y !in pids - {x} && forall i :: i in pids - {x} ==> i < y;
      var z := if x < y then y else x + 1;
      forall i | i in pids ensures i < z {
        assert i == x || i in pids - {x};
      }
      assert z !in pids;
    }
  }

  lemma OutcomeCanSettle(s: State, m: Message) returns (actions: seq<Action>)
    requires Inv(s) && m in s.world.sent && IsOutcome(m)
    ensures Published(Run(s, actions).world, m.order) && Outstanding(Run(s, actions).world, m.order) == 0
  {
    hide FateOf, Outstanding, WorldOk, CreatorsDiffer, Run;
    var pid := FreshPid(s.procs);
    var received := Perform(s, Deliver(pid, m));
    PerformKeepsInv(s, Deliver(pid, m));
    assert ProcOk(received.world, received.procs[pid]);
    var loaded := Perform(received, Load(pid));
    PerformKeepsInv(received, Load(pid));
    var rest := LinesCanSettle(loaded, pid);
    RunOne(s, Deliver(pid, m));
    RunOne(received, Load(pid));
    RunAppend(received, [Load(pid)], rest);
    RunAppend(s, [Deliver(pid, m)], [Load(pid)] + rest);
    actions := [Deliver(pid, m)] + ([Load(pid)] + rest);
  }

  lemma LookingLeadsOn(s: State, pid: nat, o: OrderId)
    requires Inv(s) && Published(s.world, o) && pid !in s.procs
    ensures var s' := Perform(Perform(s, Deliver(pid, OrderCreated(o, s.world.orders[o].total))), LookUp(pid));
            && pid in s'.procs
            && var p := s'.procs[pid];
               if o in s'.world.payments then p.Publishing? && p.payment.order == o
               else p.Charging? && p.order == o && p.viaSaga
  {
    hide Sound, FateOf, OrderOk, MessageOk, CreatorsDiffer;
    assert o in s.world.payments ==> PaymentOk(s.world, o);
  }

  lemma ChargingLeadsOn(s: State, pid: nat)
    requires Inv(s) && pid in s.procs && s.procs[pid].Charging? && s.procs[pid].viaSaga
    requires s.procs[pid].order !in s.world.payments
    ensures var s' := Perform(Perform(s, Charge(pid, Succeeded, "")), Insert(pid, Answered));
            pid in s'.procs && s'.procs[pid].Publishing? && s'.procs[pid].payment.order == s.procs[pid].order
  {
    hide Inv;
  }

  lemma PublishingCanAnswer(s: State, before: seq<Action>, pid: nat, o: OrderId) returns (actions: seq<Action>)
    requires var s' := Run(s, before);
             Inv(s') && pid in s'.procs && s'.procs[pid].Publishing? && s'.procs[pid].payment.order == o
    ensures var w := Run(s, actions).world;
            o in w.payments && w.payments[o].order == o && OutcomeOf(w.payments[o]) in w.sent
  {
    hide Inv, Run, Perform;
    var s' := Run(s, before);
    PublishingAnswers(s', pid);
    RunOne(s', Publish(pid, Answered));
    RunAppend(s, before, [Publish(pid, Answered)]);
    actions := before + [Publish(pid, Answered)];
  }

  /** Payment can always answer for an announced order: the outcome of its row. */
  lemma PaymentCanAnswer(s: State, o: OrderId) returns (actions: seq<Action>)
    requires Inv(s) && Published(s.world, o)
    ensures var w := Run(s, actions).world;
            && o in w.payments && w.payments[o].order == o
            && OutcomeOf(w.payments[o]) in w.sent
  {
    hide Inv, Run, Perform;
    var pid := FreshPid(s.procs);
    var ask := [Deliver(pid, OrderCreated(o, s.world.orders[o].total)), LookUp(pid)];
    RunTwo(s, ask[0], ask[1]);
    LookingLeadsOn(s, pid, o);
    var asked := Run(s, ask);
    RunKeepsInv(s, ask);
    if asked.procs[pid].Publishing? {
      actions := PublishingCanAnswer(s, ask, pid, o);
    } else {
      var pay := [Charge(pid, Succeeded, ""), Insert(pid, Answered)];
      RunTwo(asked, pay[0], pay[1]);
      ChargingLeadsOn(asked, pid);
      RunAppend(s, ask, pay);
      RunKeepsInv(asked, pay);
      actions := PublishingCanAnswer(s, ask + pay, pid, o);
    }
  }

  lemma PublishingAnswers(s: State, pid: nat)
    requires Inv(s) && pid in s.procs && s.procs[pid].Publishing?
    ensures var o, w := s.procs[pid].payment.order, Perform(s, Publish(pid, Answered)).world;
            o in w.payments && w.payments[o].order == o && OutcomeOf(w.payments[o]) in w.sent
  {
    hide Sound, FateOf, OrderOk, MessageOk, CreatorsDiffer;
    assert ProcOk(s.world, s.procs[pid]);
  }

  lemma RunTwo(s: State, a: Action, b: Action)
    ensures Run(s, [a, b]) == Perform(Perform(s, a), b)
  {
    hide Perform;
    RunOne(s, a);
    assert [a, b][..1] == [a];
  }

  /** From every reachable state an announced order can still be settled: no crash,
      lost reply, duplicate or race leaves it beyond recovery. */
  lemma NeverStuck(actions: seq<Action>, o: OrderId)
    requires Published(Run(EMPTY, actions).world, o)
    ensures exists more ::
              var w := Run(EMPTY, actions + more).world;
              Published(w, o) && Outstanding(w, o) == 0
  {
    hide Inv, Run, Outstanding, Published;
    var s := Run(EMPTY, actions);
    ReachedOk(actions);
    var answer := PaymentCanAnswer(s, o);
    var answered := Run(s, answer);
    RunKeepsInv(s, answer);
    var rest := OutcomeCanSettle(answered, OutcomeOf(answered.world.payments[o]));
    RunAppend(s, answer, rest);
    RunAppend(EMPTY, actions, answer + rest);
  }
}
