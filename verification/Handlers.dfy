/** The handlers as the services run them: loops and early returns over shared stores
    that every other run may change between any two of their steps. Each call is a run
    of the step system, so all that holds of runs holds of the handlers. */
module Handlers {
  import opened Wrappers
  import opened Catalog
  import opened Saga
  import opened SagaInvariant
  import opened SagaSteps
  import opened SagaTheorems
  import opened SagaRollback
  import opened SagaProgress
  import opened SagaPrices

  ghost predicate Reaches(s: State, s': State) {
    exists actions :: Run(s, actions) == s'
  }

  lemma ReachesSelf(s: State)
    ensures Reaches(s, s)
  {
    assert Run(s, []) == s;
  }

  lemma ReachesOn(s: State, s': State, a: Action)
    requires Reaches(s, s')
    ensures Reaches(s, Perform(s', a))
  {
    hide Run, Perform;
    var actions :| Run(s, actions) == s';
    RunOne(s', a);
    RunAppend(s, actions, [a]);
  }

  lemma ReachesThrough(s: State, s': State, s'': State)
    requires Reaches(s, s') && Reaches(s', s'')
    ensures Reaches(s, s'')
  {
    hide Run;
    var a :| Run(s, a) == s';
    var b :| Run(s', b) == s'';
    RunAppend(s, a, b);
  }

  lemma ReachesKeepsInv(s: State, s': State)
    requires Inv(s) && Reaches(s, s')
    ensures Inv(s')
  {
    hide Inv, Run;
    var actions :| Run(s, actions) == s';
    RunKeepsInv(s, actions);
  }

  /** The state with one more run under way. */
  ghost function Amid(w: World, others: map<nat, Proc>, me: nat, at: Proc): State {
    State(w, others[me := at])
  }

  /** The same state with one more run under way: the steps of others see no difference. */
  ghost predicate Alike(s: State, amid: State, me: nat, at: Proc) {
    me !in s.procs && amid == Amid(s.world, s.procs, me, at)
  }

  lemma WithIsAlike(s: State, amid: State, me: nat, at: Proc, pid: nat)
    requires Alike(s, amid, me, at) && pid != me
    ensures forall w, p :: Alike(With(s, w, pid, p), With(amid, w, pid, p), me, at)
    ensures forall w :: Alike(Without(s, w, pid), Without(amid, w, pid), me, at)
  {
    forall w: World, p: Proc
      ensures Alike(With(s, w, pid, p), With(amid, w, pid, p), me, at)
    {
      assert s.procs[me := at][pid := p] == s.procs[pid := p][me := at];
    }
    assert s.procs[me := at] - {pid} == (s.procs - {pid})[me := at];
  }

  lemma CreatingIsAlike(s: State, amid: State, me: nat, at: Proc, a: Action)
    requires Alike(s, amid, me, at) && Enabled(s, a) && Enabled(amid, a)
    requires a.PriceLine? || a.ReserveLine? || a.UndoLine? || a.Record? || a.Announce?
    requires a.pid != me
    ensures Alike(Step(s, a), Step(amid, a), me, at)
  {
    WithIsAlike(s, amid, me, at, a.pid);
    assert amid.world == s.world && amid.procs[a.pid] == s.procs[a.pid];
    hide Alike, With, Without, Reserve, Release, ByProduct;
  }

  lemma PayingIsAlike(s: State, amid: State, me: nat, at: Proc, a: Action)
    requires Alike(s, amid, me, at) && Enabled(s, a) && Enabled(amid, a)
    requires a.LookUp? || a.Charge? || a.Insert? || a.Reload? || a.Publish?
    requires a.pid != me
    ensures Alike(Step(s, a), Step(amid, a), me, at)
  {
    WithIsAlike(s, amid, me, at, a.pid);
    assert amid.world == s.world && amid.procs[a.pid] == s.procs[a.pid];
    hide Alike, With, Without;
  }

  lemma SettlingIsAlike(s: State, amid: State, me: nat, at: Proc, a: Action)
    requires Alike(s, amid, me, at) && Enabled(s, a) && Enabled(amid, a)
    requires a.Load? || a.SettleLine? || a.Close? || a.Crash?
    requires a.pid != me
    ensures Alike(Step(s, a), Step(amid, a), me, at)
  {
    WithIsAlike(s, amid, me, at, a.pid);
    assert amid.world == s.world && amid.procs[a.pid] == s.procs[a.pid];
    hide Alike, With, Without, Settle, UpdateStatus;
  }

  lemma OutsideIsAlike(s: State, amid: State, me: nat, at: Proc, a: Action)
    requires Alike(s, amid, me, at) && Enabled(s, a) && Enabled(amid, a) && !Uses(a, me)
    requires a.Restock? || a.NewProduct? || a.Accept? || a.Deliver? || a.HttpCharge?
    ensures Alike(Step(s, a), Step(amid, a), me, at)
  {
    if !a.Restock? && !a.NewProduct? {
      WithIsAlike(s, amid, me, at, a.pid);
    }
    hide With, AddStock, CreateProduct, ValidRequest;
  }

  /** A run never looks at another: what others do does not depend on where it is. */
  lemma OthersDoNotLook(w: World, others: map<nat, Proc>, me: nat, at: Proc, a: Action)
    requires me !in others && !Uses(a, me)
    ensures var s := Perform(State(w, others), a);
            me !in s.procs && Perform(Amid(w, others, me, at), a) == Amid(s.world, s.procs, me, at)
  {
    var s, amid := State(w, others), Amid(w, others, me, at);
    assert Alike(s, amid, me, at);
    assert Enabled(amid, a) == Enabled(s, a);
    assert Alike(Perform(s, a), Perform(amid, a), me, at) by {
      hide Enabled, Step, Alike, Amid;
      if Enabled(s, a) {
        if a.Restock? || a.NewProduct? || a.Accept? || a.Deliver? || a.HttpCharge? {
          OutsideIsAlike(s, amid, me, at, a);
        } else if a.LookUp? || a.Charge? || a.Insert? || a.Reload? || a.Publish? {
          PayingIsAlike(s, amid, me, at, a);
        } else if a.Load? || a.SettleLine? || a.Close? || a.Crash? {
          SettlingIsAlike(s, amid, me, at, a);
        } else {
          CreatingIsAlike(s, amid, me, at, a);
        }
      }
    }
  }

  lemma Enters(w: World, others: map<nat, Proc>, me: nat, a: Action, w': World, at: Proc)
    requires me !in others && Enabled(State(w, others), a)
    requires Step(State(w, others), a) == With(State(w, others), w', me, at)
    ensures Reaches(State(w, others), Amid(w', others, me, at))
  {
    ReachesSelf(State(w, others));
    ReachesOn(State(w, others), State(w, others), a);
  }

  lemma Moves(start: State, w: World, others: map<nat, Proc>, me: nat, at: Proc, a: Action, w': World, at': Proc)
    requires Reaches(start, Amid(w, others, me, at)) && Enabled(Amid(w, others, me, at), a)
    requires Step(Amid(w, others, me, at), a) == With(Amid(w, others, me, at), w', me, at')
    ensures Reaches(start, Amid(w', others, me, at'))
  {
    hide Step, Enabled;
    ReachesOn(start, Amid(w, others, me, at), a);
    assert others[me := at][me := at'] == others[me := at'];
  }

  lemma Leaves(start: State, w: World, others: map<nat, Proc>, me: nat, at: Proc, a: Action, w': World)
    requires me !in others && Reaches(start, Amid(w, others, me, at)) && Enabled(Amid(w, others, me, at), a)
    requires Step(Amid(w, others, me, at), a) == Without(Amid(w, others, me, at), w', me)
    ensures Reaches(start, State(w', others))
  {
    hide Step, Enabled;
    ReachesOn(start, Amid(w, others, me, at), a);
    assert others[me := at] - {me} == others;
  }

  // ---- The steps of the outcome handlers ----

  lemma LoadStep(start: State, w: World, others: map<nat, Proc>, me: nat, at: Proc)
    requires me !in others && at.Loading? && Reaches(start, Amid(w, others, me, at))
    ensures if at.order in w.orders then
              Reaches(start, Amid(w, others, me,
                Settling(at.order, w.orders[at.order].lines, at.verdict, at.reason, 0)))
            else Reaches(start, State(w, others))
  {
    hide Reaches;
    if at.order in w.orders {
      Moves(start, w, others, me, at, Load(me), w,
            Settling(at.order, w.orders[at.order].lines, at.verdict, at.reason, 0));
    } else {
      Leaves(start, w, others, me, at, Load(me), w);
    }
  }

  lemma SettleLineStep(start: State, w: World, others: map<nat, Proc>, me: nat, at: Proc, reply: Reply, w': World)
    requires me !in others && at.Settling? && at.done < |at.lines| && Reaches(start, Amid(w, others, me, at))
    requires var (t, outcome) := Settle(w.catalog, at.verdict, Key(at.order, at.lines[at.done].product));
             w' == w.(catalog := if reply.Unreached? then w.catalog else t)
    ensures if reply.Answered? && Settle(w.catalog, at.verdict, Key(at.order, at.lines[at.done].product)).1.Done? then
              Reaches(start, Amid(w', others, me, Settling(at.order, at.lines, at.verdict, at.reason, at.done + 1)))
            else Reaches(start, State(w', others))
    ensures Inv(start) ==> Settle(w.catalog, at.verdict, Key(at.order, at.lines[at.done].product)).1.Done?
  {
    hide Reaches, Settle, Inv, WorldOk, LineFate;
    if Inv(start) {
      AmidIsOk(start, w, others, me, at);
      SettlingMoves(w, at.order, at.verdict, at.done);
    }
    if reply.Answered? && Settle(w.catalog, at.verdict, Key(at.order, at.lines[at.done].product)).1.Done? {
      Moves(start, w, others, me, at, SettleLine(me, reply), w',
            Settling(at.order, at.lines, at.verdict, at.reason, at.done + 1));
    } else {
      Leaves(start, w, others, me, at, SettleLine(me, reply), w');
    }
  }

  lemma CloseStep(start: State, w: World, others: map<nat, Proc>, me: nat, at: Proc, reply: Reply, w': World)
    requires me !in others && at.Settling? && at.done == |at.lines| && Reaches(start, Amid(w, others, me, at))
    requires w' == if reply.Unreached? then w
                   else w.(orders := UpdateStatus(w.orders, at.order, at.verdict, ReasonFor(at.verdict, at.reason)))
    ensures Reaches(start, State(w', others))
    ensures Inv(start) && reply.Answered? && at.order in w.orders ==>
              && at.order in w'.orders && w'.orders[at.order].status == StatusFor(at.verdict)
              && Outstanding(w', at.order) == 0
  {
    hide Reaches, UpdateStatus, Outstanding, Inv;
    if reply.Answered? && at.order in w.orders {
      var finished := Finished(at.order, at.verdict);
      Moves(start, w, others, me, at, Close(me, reply), w', finished);
      Leaves(start, w', others, me, finished, Crash(me), w');
      if Inv(start) {
        FinishedIsSettled(start, w', others, me, at.order, at.verdict);
      }
    } else {
      if at.order !in w.orders {
        UpdatesKnown(w.orders, at);
      }
      Leaves(start, w, others, me, at, Close(me, reply), w');
    }
  }

  lemma UpdatesKnown(orders: map<OrderId, Order>, at: Proc)
    requires at.Settling? && at.order !in orders
    ensures UpdateStatus(orders, at.order, at.verdict, ReasonFor(at.verdict, at.reason)) == orders
  {
  }

  // ---- The steps of createOrder ----

  /** Where createOrder stands once these lines are priced. */
  function Priced(o: OrderId, request: seq<Item>, lines: seq<Line>, total: int): Proc {
    if |lines| < |request| then Pricing(o, request, lines, total) else Reserving(o, lines, total, 0)
  }

  lemma PriceStep(start: State, w: World, others: map<nat, Proc>, me: nat, at: Proc)
    requires me !in others && at.Pricing? && |at.lines| < |at.request| && Reaches(start, Amid(w, others, me, at))
    ensures var item := at.request[|at.lines|];
            if item.product !in w.catalog.products then
              Reaches(start, Amid(w, others, me, Undoing(at.order, [], 0, 0, {})))
            else
              var price := w.catalog.products[item.product].price;
              Reaches(start, Amid(w, others, me,
                Priced(at.order, at.request, at.lines + [Line(item.product, item.units, price)],
                       at.total + price * item.units)))
  {
    hide Reaches;
    var item := at.request[|at.lines|];
    if item.product !in w.catalog.products {
      Moves(start, w, others, me, at, PriceLine(me), w, Undoing(at.order, [], 0, 0, {}));
    } else {
      var price := w.catalog.products[item.product].price;
      Moves(start, w, others, me, at, PriceLine(me), w,
            Priced(at.order, at.request, at.lines + [Line(item.product, item.units, price)],
                   at.total + price * item.units));
    }
  }

  lemma RefusalsChangeNothing(t: Tables, k: Key, units: int)
    ensures !Reserve(t, k, units).1.Done? ==> Reserve(t, k, units).0 == t
    ensures !Release(t, k).1.Done? ==> Release(t, k).0 == t
  {
  }

  lemma ReserveStep(start: State, w: World, others: map<nat, Proc>, me: nat, at: Proc, reply: Reply, w': World)
    requires me !in others && at.Reserving? && at.done < |at.lines| && Reaches(start, Amid(w, others, me, at))
    requires var line := at.lines[at.done];
             w' == w.(catalog := if reply.Unreached? then w.catalog
                                 else Reserve(w.catalog, Key(at.order, line.product), line.units).0)
    ensures var line := at.lines[at.done];
            var held := Reserve(w.catalog, Key(at.order, line.product), line.units).1.Done?;
            Reaches(start, Amid(w', others, me,
              if reply.Answered? && held then Reserving(at.order, at.lines, at.total, at.done + 1)
              else Undoing(at.order, at.lines, at.done, 0, if reply.Lost? && held then {line.product} else {})))
  {
    hide Reaches, Reserve;
    var line := at.lines[at.done];
    var held := Reserve(w.catalog, Key(at.order, line.product), line.units).1.Done?;
    RefusalsChangeNothing(w.catalog, Key(at.order, line.product), line.units);
    assert w.(catalog := w.catalog) == w;
    Moves(start, w, others, me, at, ReserveLine(me, reply), w',
          if reply.Answered? && held then Reserving(at.order, at.lines, at.total, at.done + 1)
          else Undoing(at.order, at.lines, at.done, 0, if reply.Lost? && held then {line.product} else {}));
  }

  lemma UndoStep(start: State, w: World, others: map<nat, Proc>, me: nat, at: Proc, reached: bool, w': World)
    requires me !in others && at.Undoing? && at.done < at.held <= |at.lines| && Reaches(start, Amid(w, others, me, at))
    requires var k := Key(at.order, at.lines[at.done].product);
             w' == w.(catalog := if reached then Release(w.catalog, k).0 else w.catalog)
    ensures var product := at.lines[at.done].product;
            var gone := reached && Release(w.catalog, Key(at.order, product)).1.Done?;
            Reaches(start, Amid(w', others, me,
              Undoing(at.order, at.lines, at.held, at.done + 1, if gone then at.stranded else at.stranded + {product})))
    ensures Inv(start) ==> Release(w.catalog, Key(at.order, at.lines[at.done].product)).1.Done?
  {
    hide Reaches, Release, Inv, CreatorOk;
    var product := at.lines[at.done].product;
    var gone := reached && Release(w.catalog, Key(at.order, product)).1.Done?;
    RefusalsChangeNothing(w.catalog, Key(at.order, product), 0);
    assert w.(catalog := w.catalog) == w;
    Moves(start, w, others, me, at, UndoLine(me, reached), w',
          Undoing(at.order, at.lines, at.held, at.done + 1, if gone then at.stranded else at.stranded + {product}));
    if Inv(start) {
      AmidIsOk(start, w, others, me, at);
      UndoIsDone(w, at);
    }
  }

  lemma AmidIsOk(start: State, w: World, others: map<nat, Proc>, me: nat, at: Proc)
    requires Inv(start) && Reaches(start, Amid(w, others, me, at))
    ensures WorldOk(w) && ProcOk(w, at)
  {
    hide Reaches, WorldOk, ProcOk;
    ReachesKeepsInv(start, Amid(w, others, me, at));
    assert Amid(w, others, me, at).procs[me] == at;
  }

  lemma RecordStep(start: State, w: World, others: map<nat, Proc>, me: nat, at: Proc, reply: Reply, w': World)
    requires me !in others && at.Reserving? && at.done == |at.lines| && Reaches(start, Amid(w, others, me, at))
    requires w' == if reply.Unreached? || at.order in w.orders || at.lines == [] then w
                   else w.(orders := w.orders[at.order := Order(Pending, at.total, "", ByProduct(at.lines))])
    ensures Reaches(start, Amid(w', others, me,
              if reply.Answered? && at.order !in w.orders && at.lines != [] then Announcing(at.order, at.total)
              else Undoing(at.order, at.lines, |at.lines|, 0, {})))
  {
    hide Reaches, ByProduct;
    Moves(start, w, others, me, at, Record(me, reply), w',
          if reply.Answered? && at.order !in w.orders && at.lines != [] then Announcing(at.order, at.total)
          else Undoing(at.order, at.lines, |at.lines|, 0, {}));
  }

  lemma AnnounceStep(start: State, w: World, others: map<nat, Proc>, me: nat, at: Proc, reply: Reply, w': World)
    requires me !in others && at.Announcing? && Reaches(start, Amid(w, others, me, at))
    requires w' == if reply.Unreached? then w else w.(sent := w.sent + {OrderCreated(at.order, at.total)})
    ensures Reaches(start, State(w', others))
    ensures Inv(start) ==> at.order in w'.orders && w'.orders[at.order].total == at.total
  {
    hide Reaches, Inv, WorldOk;
    Leaves(start, w, others, me, at, Announce(me, reply), w');
    if Inv(start) {
      AmidIsOk(start, w, others, me, at);
    }
  }

  /** One line for each requested item, of the same product and units. */
  ghost predicate Orders(request: seq<Item>, lines: seq<Line>) {
    && |lines| == |request|
    && forall i :: 0 <= i < |request| ==> HasLine(lines, request[i])
  }

  ghost predicate HasLine(lines: seq<Line>, item: Item) {
    exists j :: 0 <= j < |lines| && lines[j].product == item.product && lines[j].units == item.units
  }

  /** The lines as priced, in the order requested. */
  predicate PricedFrom(items: seq<Line>, request: seq<Item>) {
    && |items| == |request|
    && forall i :: 0 <= i < |items| ==> items[i].product == request[i].product && items[i].units == request[i].units
  }

  lemma SortedStillOrders(request: seq<Item>, items: seq<Line>)
    requires PricedFrom(items, request)
    ensures Orders(request, ByProduct(items))
  {
    hide ByProduct, Total;
    SortingKeepsLines(items);
    var sorted := ByProduct(items);
    assert |sorted| == |multiset(sorted)| == |multiset(items)| == |items|;
    forall i | 0 <= i < |request|
      ensures HasLine(sorted, request[i])
    {
      var j := FindLine(items, sorted, i);
      assert sorted[j].product == request[i].product && sorted[j].units == request[i].units;
    }
  }

  lemma FindLine(a: seq<Line>, b: seq<Line>, i: nat) returns (j: nat)
    requires multiset(a) == multiset(b) && i < |a|
    ensures j < |b| && b[j] == a[i]
  {
    assert a[i] in multiset(b);
    j :| j < |b| && b[j] == a[i];
  }

  /** What the processor says is said to the run that asked. */
  lemma OthersAnswers(s: State, me: nat, a: Action)
    requires !Uses(a, me)
    ensures TellsNothing(me, s.world.answers, Perform(s, a).world.answers)
  {
    hide Reserve, Release, Settle, AddStock, CreateProduct, ByProduct, UpdateStatus, ValidRequest;
  }

  lemma NothingCosts()
    ensures Total([]) == 0
  {
  }

  lemma ExtendsItself(w: World)
    ensures Extends(w, w)
  {
  }

  lemma ExtendsThrough(a: World, b: World, c: World)
    requires Extends(a, b) && Extends(b, c)
    ensures Extends(a, c)
  {
  }

  /** Some requested product has never been created. */
  ghost predicate NamesUnknown(t: Tables, request: seq<Item>) {
    exists i :: 0 <= i < |request| && request[i].product !in t.products
  }

  /** On the way from one state to the other there was a moment when less of a known
      product was available than a line asks for. */
  ghost predicate RanShort(from: State, short: State, to: State, items: seq<Line>) {
    && Reaches(from, short) && Reaches(short, to)
    && exists i :: 0 <= i < |items| && LacksStock(short.world.catalog, items[i])
  }

  predicate LacksStock(t: Tables, line: Line) {
    && line.product in t.products
    && t.products[line.product].stock - t.products[line.product].reserved < line.units
  }

  lemma StillUnknown(t: Tables, t': Tables, request: seq<Item>, i: nat)
    requires KeepsPrices(t, t') && i < |request| && request[i].product !in t'.products
    ensures NamesUnknown(t, request)
  {
    assert request[i].product !in t.products;
  }

  lemma NothingPricedYet(t: Tables)
    ensures AtCatalogPrice(t, [])
  {
  }

  lemma OneMorePriced(t: Tables, items: seq<Line>, line: Line)
    requires AtCatalogPrice(t, items) && line.product in t.products && line.price == t.products[line.product].price
    ensures AtCatalogPrice(t, items + [line])
  {
  }

  lemma StillPriced(t: Tables, k: Key, units: int, items: seq<Line>)
    requires AtCatalogPrice(t, items)
    ensures AtCatalogPrice(Reserve(t, k, units).0, items)
  {
    CallsKeepPrices(t, ReserveRequest(k, units));
    StillAtCatalogPrice(t, Reserve(t, k, units).0);
  }

  /** The answers a Reserve of a priced line can get. */
  lemma HoldAnswers(t: Tables, items: seq<Line>, i: nat, o: OrderId)
    requires AtCatalogPrice(t, items) && i < |items| && items[i].units > 0
    ensures var outcome := Reserve(t, Key(o, items[i].product), items[i].units).1;
            (outcome.Done? || outcome.Insufficient?) && (outcome.Insufficient? ==> LacksStock(t, items[i]))
  {
  }

  lemma AmidWorld(w: World, others: map<nat, Proc>, me: nat, at: Proc)
    ensures Amid(w, others, me, at).world == w
  {
  }

  lemma ValidUnits(request: seq<Item>, items: seq<Line>)
    requires ValidRequest(request) && PricedFrom(items, request)
    ensures forall i :: 0 <= i < |items| ==> items[i].units > 0
  {
  }

  lemma UndrawnIsBlank(s: State, o: OrderId)
    requires Inv(s) && o !in s.world.drawn
    ensures Blank(s.world, o)
  {
    hide Sound, Story;
    assert o in s.world.orders ==> OrderOk(s.world, o);
    forall k | k in s.world.catalog.rows
      ensures k.order != o
    {
      assert k.order == o ==> FateOf(s.world.catalog, k).Untouched?;
    }
  }

  lemma ValidIsSome(request: seq<Item>)
    requires ValidRequest(request)
    ensures request != []
  {
  }

  lemma ReservingIsUnrecorded(start: State, w: World, others: map<nat, Proc>, me: nat, at: Proc)
    requires Inv(start) && at.Reserving? && Reaches(start, Amid(w, others, me, at))
    ensures at.order !in w.orders && at.lines != []
  {
    hide Reaches, WorldOk, LineFate, Published;
    AmidIsOk(start, w, others, me, at);
  }

  /** An order still being priced, or found to name an unknown product, has left no trace. */
  lemma UnpricedIsBlank(start: State, w: World, others: map<nat, Proc>, me: nat, at: Proc)
    requires Inv(start) && at.Pricing? && Reaches(start, Amid(w, others, me, at))
    ensures Blank(w, at.order)
  {
    hide Reaches, Sound, Published, Total, Story;
    AmidIsOk(start, w, others, me, at);
    var o := at.order;
    forall k | k in w.catalog.rows
      ensures k.order != o
    {
      assert k.order == o ==> LineFate(w, o, k.product).Untouched?;
    }
  }

  // ---- The steps of the payment handlers ----

  lemma LookUpStep(start: State, w: World, others: map<nat, Proc>, me: nat, at: Proc)
    requires me !in others && at.Looking? && Reaches(start, Amid(w, others, me, at))
    ensures Reaches(start, Amid(w, others, me, if at.order in w.payments then Report(w.payments[at.order], at.viaSaga)
                                               else Charging(at.order, at.amount, at.viaSaga)))
  {
    hide Reaches;
    Moves(start, w, others, me, at, LookUp(me), w,
          if at.order in w.payments then Report(w.payments[at.order], at.viaSaga)
          else Charging(at.order, at.amount, at.viaSaga));
  }

  lemma ChargeStep(start: State, w: World, others: map<nat, Proc>, me: nat, at: Proc, v: Verdict, reason: string,
                   w': World)
    requires me !in others && at.Charging? && Reaches(start, Amid(w, others, me, at))
    requires v.Succeeded? ==> reason == ""
    requires w' == w.(answers := w.answers + [Answer(me, at.order, at.amount, v, reason)])
    ensures Reaches(start, Amid(w', others, me, Storing(Payment(at.order, at.amount, v, reason, at.viaSaga))))
  {
    hide Reaches;
    Moves(start, w, others, me, at, Charge(me, v, reason), w',
          Storing(Payment(at.order, at.amount, v, reason, at.viaSaga)));
  }

  lemma InsertStep(start: State, w: World, others: map<nat, Proc>, me: nat, at: Proc, reply: Reply, w': World)
    requires me !in others && at.Storing? && Reaches(start, Amid(w, others, me, at))
    requires var p := at.payment;
             w' == if reply.Unreached? || p.order in w.payments then w else w.(payments := w.payments[p.order := p])
    ensures var p := at.payment;
            if reply.Answered? then
              Reaches(start, Amid(w', others, me, if p.order in w.payments then Reloading(p.order, p.viaSaga)
                                                  else Report(p, p.viaSaga)))
            else Reaches(start, State(w', others))
  {
    hide Reaches;
    var p := at.payment;
    if reply.Answered? {
      Moves(start, w, others, me, at, Insert(me, reply), w',
            if p.order in w.payments then Reloading(p.order, p.viaSaga) else Report(p, p.viaSaga));
    } else {
      Leaves(start, w, others, me, at, Insert(me, reply), w');
    }
  }

  lemma ReloadStep(start: State, w: World, others: map<nat, Proc>, me: nat, at: Proc)
    requires me !in others && at.Reloading? && Reaches(start, Amid(w, others, me, at))
    ensures if at.order in w.payments then Reaches(start, Amid(w, others, me, Report(w.payments[at.order], at.viaSaga)))
            else Reaches(start, State(w, others))
    ensures Inv(start) ==> at.order in w.payments
  {
    hide Reaches, Inv, WorldOk;
    if Inv(start) {
      AmidIsOk(start, w, others, me, at);
    }
    if at.order in w.payments {
      Moves(start, w, others, me, at, Reload(me), w, Report(w.payments[at.order], at.viaSaga));
    } else {
      Leaves(start, w, others, me, at, Reload(me), w);
    }
  }

  lemma PublishStep(start: State, w: World, others: map<nat, Proc>, me: nat, at: Proc, reply: Reply, w': World)
    requires me !in others && at.Publishing? && Reaches(start, Amid(w, others, me, at))
    requires w' == if reply.Unreached? then w else w.(sent := w.sent + {OutcomeOf(at.payment)})
    ensures Reaches(start, State(w', others))
    ensures Inv(start) ==> at.payment.order in w'.payments && w'.payments[at.payment.order] == at.payment
  {
    hide Reaches, Inv;
    Leaves(start, w, others, me, at, Publish(me, reply), w');
    if Inv(start) {
      ReportedIsStored(start, w, others, me, at);
    }
  }

  /** A run ends here without a further effect. */
  lemma EndStep(start: State, w: World, others: map<nat, Proc>, me: nat, at: Proc)
    requires me !in others && Reaches(start, Amid(w, others, me, at))
    ensures Reaches(start, State(w, others))
  {
    hide Reaches;
    Leaves(start, w, others, me, at, Crash(me), w);
  }

  /** What a run is about to publish or to answer is the stored row. */
  lemma ReportedIsStored(start: State, w: World, others: map<nat, Proc>, me: nat, at: Proc)
    requires Inv(start) && Reaches(start, Amid(w, others, me, at)) && (at.Publishing? || at.Shown?)
    ensures at.payment.order in w.payments && w.payments[at.payment.order] == at.payment
  {
    hide Reaches, WorldOk, CreatorsDiffer;
    var s := Amid(w, others, me, at);
    ReachesKeepsInv(start, s);
    assert ProcOk(s.world, s.procs[me]);
  }

  /** The processor has told the run nothing. */
  ghost predicate TellsNothing(me: nat, was: seq<Answer>, now: seq<Answer>) {
    was <= now && forall i :: |was| <= i < |now| ==> now[i].pid != me
  }

  lemma TellsNothingOn(me: nat, a: seq<Answer>, b: seq<Answer>, c: seq<Answer>)
    requires TellsNothing(me, a, b) && TellsNothing(me, b, c)
    ensures TellsNothing(me, a, c)
  {
  }

  lemma AsksNothing(me: nat, o: OrderId, amount: int, was: seq<Answer>, now: seq<Answer>)
    requires TellsNothing(me, was, now)
    ensures AsksOnce(me, o, amount, was, now)
  {
  }

  lemma AsksNow(me: nat, x: Answer, was: seq<Answer>, now: seq<Answer>)
    requires TellsNothing(me, was, now) && x.pid == me
    ensures AsksOnce(me, x.order, x.amount, was, now + [x])
  {
  }

  lemma AsksNoMore(me: nat, o: OrderId, amount: int, a: seq<Answer>, b: seq<Answer>, c: seq<Answer>)
    requires AsksOnce(me, o, amount, a, b) && TellsNothing(me, b, c)
    ensures AsksOnce(me, o, amount, a, c)
  {
  }

  /** The run has asked the processor at most once, about this order and amount. */
  ghost predicate AsksOnce(me: nat, o: OrderId, amount: int, was: seq<Answer>, now: seq<Answer>) {
    && was <= now
    && (forall i :: |was| <= i < |now| && now[i].pid == me ==> now[i].order == o && now[i].amount == amount)
    && (forall i, j :: |was| <= i < j < |now| ==> now[i].pid != me || now[j].pid != me)
  }

  datatype UpdateResult = Updated | OrderNotFound | InvalidTransition | DatabaseError

  datatype InsertResult = Recorded | AlreadyCharged | Failure

  /** The answers of createOrder. `Unannounced` is the 502 for an order that exists but
      could not be submitted for payment. */
  datatype Response = BadRequest | BadGateway | Conflict | ServerError | Unannounced | Submitted

  /** How far the caller can rely on its calls: not at all; so far that it hears of
      whatever it did and its releases get through; or so far that every call is answered. */
  datatype Network = Faulty | Lossless | Responsive

  /** The four services' stores and the broker, and the runs under way besides the
      caller's own. */
  class Services {
    var catalog: Tables
    var orders: map<OrderId, Order>
    var payments: map<OrderId, Payment>
    var sent: set<Message>
    var drawn: set<OrderId>
    var answers: seq<Answer>
    var others: map<nat, Proc>
    const network: Network

    constructor (network: Network)
      ensures Idle() == EMPTY && this.network == network
    {
      this.network := network;
      catalog, orders, payments := Tables(map[], map[], []), map[], map[];
      sent, drawn, answers, others := {}, {}, [], map[];
    }

    function Now(): World
      reads this
    {
      World(catalog, orders, payments, sent, drawn, answers)
    }

    /** The whole state when the caller has no run under way. */
    function Idle(): State
      reads this
    {
      State(Now(), others)
    }

    /** Anything the other runs, or the world outside, may do meanwhile. */
    method Interfere(me: nat, ghost at: Proc, ghost start: State)
      requires me !in others && Reaches(start, Amid(Now(), others, me, at))
      modifies this
      ensures me !in others && Reaches(start, Amid(Now(), others, me, at))
      ensures Extends(old(Now()), Now()) && KeepsPrices(old(catalog), catalog)
      ensures TellsNothing(me, old(answers), answers)
      ensures Inv(start) && Creator(at) ==> (at.order in orders <==> at.order in old(orders))
    {
      hide Reaches, Perform, Inv, Extends, KeepsPrices;
      var meanwhile: seq<Action> := *;
      ExtendsItself(Now());
      Unchanged(catalog);
      for i := 0 to |meanwhile|
        invariant Extends(old(Now()), Now()) && KeepsPrices(old(catalog), catalog)
        invariant TellsNothing(me, old(answers), answers)
        invariant me !in others && Reaches(start, Amid(Now(), others, me, at))
        invariant Inv(start) && Creator(at) ==> (at.order in orders <==> at.order in old(orders))
      {
        if !Uses(meanwhile[i], me) {
          ghost var before := Amid(Now(), others, me, at);
          OthersDoNotLook(Now(), others, me, at, meanwhile[i]);
          ReachesOn(start, before, meanwhile[i]);
          if Inv(start) && Creator(at) {
            ReachesKeepsInv(start, before);
            OthersDoNotRecord(before, me, meanwhile[i]);
          }
          PerformExtends(State(Now(), others), meanwhile[i]);
          PerformKeepsPrices(State(Now(), others), meanwhile[i]);
          OthersAnswers(State(Now(), others), me, meanwhile[i]);
          TellsNothingOn(me, old(answers), answers, Perform(State(Now(), others), meanwhile[i]).world.answers);
          var s := Perform(State(Now(), others), meanwhile[i]);
          ExtendsThrough(old(Now()), Now(), s.world);
          KeepsPricesOn(old(catalog), catalog, s.world.catalog);
          catalog, orders, payments := s.world.catalog, s.world.orders, s.world.payments;
          sent, drawn, answers, others := s.world.sent, s.world.drawn, s.world.answers, s.procs;
        }
      }
    }

    // ---- Calls to another service, any of which may fail before or after it acts ----

    /** The call does not get through. */
    method Fails() returns (yes: bool)
      ensures network.Responsive? ==> !yes
    {
      yes := *;
      yes := yes && !network.Responsive?;
    }

    /** What the call has done is not heard of, or a release does not get through. */
    method Loses() returns (yes: bool)
      ensures !network.Faulty? ==> !yes
    {
      yes := *;
      yes := yes && network.Faulty?;
    }

    method CatalogSettle(v: Verdict, k: Key) returns (ok: bool, ghost reply: Reply)
      modifies this`catalog
      ensures reply.Unreached? ==> catalog == old(catalog)
      ensures !reply.Unreached? ==> catalog == Settle(old(catalog), v, k).0
      ensures ok <==> reply.Answered? && Settle(old(catalog), v, k).1.Done?
      ensures network.Responsive? ==> reply.Answered?
    {
      var failed := Fails();
      if failed {
        return false, Unreached;
      }
      var (t, outcome) := Settle(catalog, v, k);
      catalog := t;
      failed := Fails();
      if failed {
        return false, Lost;
      }
      return outcome.Done?, Answered;
    }

    method UpdateOrderStatus(o: OrderId, v: Verdict, reason: string) returns (r: UpdateResult, ghost reply: Reply)
      modifies this`orders
      ensures reply.Unreached? ==> orders == old(orders)
      ensures !reply.Unreached? ==> orders == UpdateStatus(old(orders), o, v, reason)
      ensures orders.Keys == old(orders).Keys
      ensures r == if !reply.Answered? then DatabaseError
                   else if o !in old(orders) then OrderNotFound
                   else if old(orders)[o].status.Pending? || old(orders)[o].status == StatusFor(v) then Updated
                   else InvalidTransition
      ensures network.Responsive? ==> reply.Answered?
    {
      var failed := Fails();
      if failed {
        return DatabaseError, Unreached;
      }
      var found := o in orders && orders[o].status.Pending?;
      if found {
        orders := orders[o := orders[o].(status := StatusFor(v), reason := reason)];
      }
      failed := Fails();
      if failed {
        return DatabaseError, Lost;
      }
      if !found {
        if o !in orders {
          return OrderNotFound, Answered;
        }
        if orders[o].status != StatusFor(v) {
          return InvalidTransition, Answered;
        }
      }
      return Updated, Answered;
    }

    // ---- createOrder ----

    /** Rejects an empty or oversized order, a quantity that is not positive and a
        product named twice. */
    method Validate(request: seq<Item>) returns (ok: bool)
      ensures ok <==> ValidRequest(request)
    {
      if |request| == 0 || |request| > MAX_ITEMS {
        return false;
      }
      var seen: set<ProductId> := {};
      for i := 0 to |request|
        invariant seen == set j | 0 <= j < i :: request[j].product
        invariant forall j :: 0 <= j < i ==> request[j].units > 0
        invariant forall j, k :: 0 <= j < k < i ==> request[j].product != request[k].product
      {
        if request[i].units <= 0 || request[i].product in seen {
          return false;
        }
        seen := seen + {request[i].product};
      }
      return true;
    }

    method CatalogReserve(k: Key, units: int) returns (answer: Option<Outcome>, ghost reply: Reply)
      modifies this`catalog
      ensures catalog == if reply.Unreached? then old(catalog) else Reserve(old(catalog), k, units).0
      ensures answer == if reply.Answered? then Some(Reserve(old(catalog), k, units).1) else None
      ensures network.Responsive? ==> reply.Answered?
      ensures !network.Faulty? ==> !reply.Lost?
    {
      var failed := Fails();
      if failed {
        return None, Unreached;
      }
      var (t, outcome) := Reserve(catalog, k, units);
      catalog := t;
      var lost := Loses();
      if lost {
        return None, Lost;
      }
      return Some(outcome), Answered;
    }

    method CatalogRelease(k: Key) returns (ghost reached: bool)
      modifies this`catalog
      ensures catalog == if reached then Release(old(catalog), k).0 else old(catalog)
      ensures !network.Faulty? ==> reached
    {
      var lost := Loses();
      if lost {
        return false;
      }
      catalog := Release(catalog, k).0;
      return true;
    }

    /** Inserts the order and its items in one transaction. */
    method InsertOrder(o: OrderId, lines: seq<Line>, total: int) returns (ok: bool, ghost reply: Reply)
      modifies this`orders
      ensures orders == if reply.Unreached? || o in old(orders) || lines == [] then old(orders)
                        else old(orders)[o := Order(Pending, total, "", ByProduct(lines))]
      ensures ok <==> reply.Answered? && o !in old(orders) && lines != []
      ensures network.Responsive? ==> reply.Answered?
      ensures !network.Faulty? ==> !reply.Lost?
    {
      var failed := Fails();
      if failed {
        return false, Unreached;
      }
      if lines == [] || o in orders {
        return false, Answered;
      }
      orders := orders[o := Order(Pending, total, "", ByProduct(lines))];
      var lost := Loses();
      if lost {
        return false, Lost;
      }
      return true, Answered;
    }

    /** Gives back the lines held so far; a release that fails is only logged. */
    method ReleaseAll(me: nat, o: OrderId, lines: seq<Line>, held: nat, ghost stranded: set<ProductId>,
                      ghost start: State)
      requires Inv(start) && me !in others && held <= |lines|
      requires Reaches(start, Amid(Now(), others, me, Undoing(o, lines, held, 0, stranded)))
      modifies this
      ensures me !in others && Reaches(start, Idle())
      ensures o in orders <==> o in old(orders)
      ensures !network.Faulty? && stranded == {} ==> forall k :: k in catalog.rows ==> k.order != o
    {
      hide Inv, Reaches, Amid, Release;
      ghost var left := stranded;
      ghost var at := Undoing(o, lines, held, 0, left);
      for i := 0 to held
        invariant me !in others && at == Undoing(o, lines, held, i, left)
        invariant Reaches(start, Amid(Now(), others, me, at))
        invariant o in orders <==> o in old(orders)
        invariant !network.Faulty? ==> left == stranded
      {
        Interfere(me, at, start);
        ghost var before := Now();
        ghost var reached := CatalogRelease(Key(o, lines[i].product));
        UndoStep(start, before, others, me, at, reached, Now());
        left := if reached then left else left + {lines[i].product};
        at := Undoing(o, lines, held, i + 1, left);
      }
      AmidIsOk(start, Now(), others, me, at);
      RollbackLeft(Now(), at);
      EndStep(start, Now(), others, me, at);
    }

    /** Prices every line from the catalog; nothing has been held yet. */
    method PriceItems(me: nat, o: OrderId, request: seq<Item>, ghost start: State)
      returns (failure: Option<Response>, items: seq<Line>, total: int)
      requires Inv(start) && me !in others && request != []
      requires Reaches(start, Amid(Now(), others, me, Priced(o, request, [], 0)))
      modifies this
      ensures me !in others
      ensures failure.None? ==> Reaches(start, Amid(Now(), others, me, Reserving(o, items, total, 0)))
      ensures failure.None? ==> PricedFrom(items, request) && total == Total(items)
      ensures failure.Some? ==> Reaches(start, Idle()) && Blank(Now(), o)
      ensures failure.Some? ==>
                || (failure.value.BadRequest? && NamesUnknown(old(catalog), request))
                || (failure.value.BadGateway? && !network.Responsive?)
      ensures KeepsPrices(old(catalog), catalog)
      ensures failure.None? ==> AtCatalogPrice(catalog, items)
    {
      hide Inv, Reaches, Amid, Blank, Extends, Total, KeepsPrices, AtCatalogPrice, NamesUnknown;
      Unchanged(catalog);
      NothingPricedYet(catalog);
      items, total := [], 0;
      assert Total([]) == 0 by { NothingCosts(); }
      for i := 0 to |request|
        invariant me !in others && |items| == i && PricedFrom(items, request[..i]) && total == Total(items)
        invariant KeepsPrices(old(catalog), catalog) && AtCatalogPrice(catalog, items)
        invariant Reaches(start, Amid(Now(), others, me, Priced(o, request, items, total)))
      {
        ghost var at := Pricing(o, request, items, total);
        ghost var was := catalog;
        Interfere(me, at, start);
        KeepsPricesOn(old(catalog), was, catalog);
        StillAtCatalogPrice(was, catalog);
        UnpricedIsBlank(start, Now(), others, me, at);
        var failed := Fails();
      if failed {
          // The catalog cannot be asked.
          EndStep(start, Now(), others, me, at);
          return Some(BadGateway), [], 0;
        }
        PriceStep(start, Now(), others, me, at);
        if request[i].product !in catalog.products {
          StillUnknown(old(catalog), catalog, request, i);
          EndStep(start, Now(), others, me, Undoing(o, [], 0, 0, {}));
          return Some(BadRequest), [], 0;
        }
        var price := catalog.products[request[i].product].price;
        TotalSnoc(items, Line(request[i].product, request[i].units, price));
        OneMorePriced(catalog, items, Line(request[i].product, request[i].units, price));
        items, total := items + [Line(request[i].product, request[i].units, price)], total + price * request[i].units;
      }
      assert request[..|request|] == request;
      failure := None;
    }

    /** Holds every line, in the order requested, and rolls back at the first failure;
        `short` is the state in which a hold was refused. */
    method ReserveItems(me: nat, o: OrderId, items: seq<Line>, total: int, ghost start: State)
      returns (failure: Option<Response>, ghost short: State)
      requires Inv(start) && me !in others
      requires Reaches(start, Amid(Now(), others, me, Reserving(o, items, total, 0)))
      requires AtCatalogPrice(catalog, items) && forall i :: 0 <= i < |items| ==> items[i].units > 0
      modifies this
      ensures me !in others
      ensures failure.None? ==> Reaches(start, Amid(Now(), others, me, Reserving(o, items, total, |items|)))
      ensures failure.Some? ==> Reaches(start, Idle()) && (!network.Faulty? ==> Blank(Now(), o))
      ensures failure.Some? ==>
                || (failure.value.Conflict? && RanShort(start, short, Idle(), items))
                || (failure.value.BadGateway? && !network.Responsive?)
    {
      hide Inv, Reaches, Amid, Reserve, AtCatalogPrice, KeepsPrices;
      for i := 0 to |items|
        invariant me !in others && Reaches(start, Amid(Now(), others, me, Reserving(o, items, total, i)))
        invariant AtCatalogPrice(catalog, items)
      {
        ghost var at := Reserving(o, items, total, i);
        ghost var was := catalog;
        Interfere(me, at, start);
        StillAtCatalogPrice(was, catalog);
        ghost var before := Now();
        ReservingIsUnrecorded(start, Now(), others, me, at);
        short := Amid(before, others, me, at);
        AmidWorld(before, others, me, at);
        ReachesKeepsInv(start, short);
        ReachesSelf(short);
        var answer, reply := CatalogReserve(Key(o, items[i].product), items[i].units);
        ReserveStep(short, before, others, me, at, reply, Now());
        HoldAnswers(before.catalog, items, i, o);
        if answer != Some(Done) {
          ghost var held := Reserve(before.catalog, Key(o, items[i].product), items[i].units).1.Done?;
          ReleaseAll(me, o, items, i, if reply.Lost? && held then {items[i].product} else {}, short);
          ReachesThrough(start, short, Idle());
          if answer == Some(Insufficient) {
            return Some(Conflict), short;
          }
          return Some(if answer == Some(NotFound) then BadRequest else BadGateway), short;
        }
        ReserveStep(start, before, others, me, at, reply, Now());
        StillPriced(before.catalog, Key(o, items[i].product), items[i].units, items);
      }
      return None, start;
    }

    /** Prices the lines, holds the stock, records the order and announces it, undoing
        the holds if anything fails before the order is recorded. */
    method CreateOrder(me: nat, o: OrderId, request: seq<Item>) returns (r: Response, ghost short: State)
      requires Inv(Idle()) && me !in others && o !in drawn
      modifies this
      ensures me !in others && Reaches(old(Idle()), Idle()) && Inv(Idle())
      ensures !ValidRequest(request) ==> r.BadRequest? && Idle() == old(Idle())
      ensures r.Submitted? ==> o in orders && OrderCreated(o, orders[o].total) in sent
      ensures r.Submitted? || r.Unannounced? ==> o in orders && Orders(request, orders[o].lines)
      ensures !network.Faulty? && !r.Submitted? && !r.Unannounced? ==> Blank(Now(), o)
      ensures r.BadRequest? ==> !ValidRequest(request) || NamesUnknown(old(catalog), request)
      ensures r.Conflict? ==> exists items :: PricedFrom(items, request) && RanShort(old(Idle()), short, Idle(), items)
      ensures network.Responsive? ==> r.Submitted? || r.Conflict? || r.BadRequest?
    {
      hide Inv, Reaches, Amid, Blank, ByProduct, ValidRequest, Orders, PricedFrom, Total;
      hide AtCatalogPrice, NamesUnknown, RanShort;
      short := Idle();
      ghost var start := Idle();
      var valid := Validate(request);
      if !valid {
        ReachesSelf(start);
        UndrawnIsBlank(start, o);
        return BadRequest, short;
      }
      assert request != [] by { ValidIsSome(request); }
      drawn := drawn + {o};
      Enters(start.world, others, me, Accept(me, o, request), Now(), Pricing(o, request, [], 0));
      var failure, items, total := PriceItems(me, o, request, start);
      if failure.None? {
        ValidUnits(request, items);
        failure, short := ReserveItems(me, o, items, total, start);
      }
      if failure.Some? {
        ReachesKeepsInv(start, Idle());
        return failure.value, short;
      }
      r := RecordAndAnnounce(me, o, items, total, start);
      ReachesKeepsInv(start, Idle());
      SortedStillOrders(request, items);
    }

    method RecordAndAnnounce(me: nat, o: OrderId, items: seq<Line>, total: int, ghost start: State)
      returns (r: Response)
      requires Inv(start) && me !in others
      requires Reaches(start, Amid(Now(), others, me, Reserving(o, items, total, |items|)))
      modifies this
      ensures me !in others && Reaches(start, Idle())
      ensures r.Submitted? ==> o in orders && OrderCreated(o, total) in sent
      ensures r.Submitted? || r.Unannounced? ==>
                o in orders && orders[o].lines == ByProduct(items) && orders[o].total == total
      ensures !network.Faulty? && !r.Submitted? && !r.Unannounced? ==> Blank(Now(), o)
      ensures r.Submitted? || r.Unannounced? || r.ServerError?
      ensures network.Responsive? ==> r.Submitted?
    {
      hide Inv, Reaches, Amid, ByProduct;
      ghost var at := Reserving(o, items, total, |items|);
      Interfere(me, at, start);
      ghost var before := Now();
      ReservingIsUnrecorded(start, before, others, me, at);
      var recorded, reply := InsertOrder(o, items, total);
      RecordStep(start, before, others, me, at, reply, Now());
      if !recorded {
        ReleaseAll(me, o, items, |items|, {}, start);
        return ServerError;
      }
      at := Announcing(o, total);
      Interfere(me, at, start);
      before := Now();
      var announced, heard := PublishMessage(OrderCreated(o, total));
      AnnounceStep(start, before, others, me, at, heard, Now());
      return if announced then Submitted else Unannounced;
    }

    // ---- The outcome handlers ----

    /** Commits every line, then confirms the order. */
    method HandlePaymentSucceeded(me: nat, m: Message) returns (ok: bool)
      requires Inv(Idle()) && me !in others && m in sent && m.PaymentSucceeded?
      modifies this
      ensures me !in others && Reaches(old(Idle()), Idle()) && Inv(Idle())
      ensures ok ==> m.order in orders && orders[m.order].status.Confirmed? && Outstanding(Now(), m.order) == 0
      ensures network.Responsive? ==> ok
    {
      hide Inv, Reaches, Outstanding;
      OutcomesAreKnown(Idle(), m);
      Enters(Now(), others, me, Deliver(me, m), Now(), Loading(m.order, Succeeded, ""));
      ok := SettleOrder(me, m.order, Succeeded, "", Idle());
      ReachesKeepsInv(old(Idle()), Idle());
    }

    /** Releases every line, then cancels the order. */
    method HandlePaymentFailed(me: nat, m: Message) returns (ok: bool)
      requires Inv(Idle()) && me !in others && m in sent && m.PaymentFailed?
      modifies this
      ensures me !in others && Reaches(old(Idle()), Idle()) && Inv(Idle())
      ensures ok ==> m.order in orders && orders[m.order].status.Cancelled? && Outstanding(Now(), m.order) == 0
      ensures network.Responsive? ==> ok
    {
      hide Inv, Reaches, Outstanding;
      OutcomesAreKnown(Idle(), m);
      Enters(Now(), others, me, Deliver(me, m), Now(), Loading(m.order, Failed, m.reason));
      ok := SettleOrder(me, m.order, Failed, m.reason, Idle());
      ReachesKeepsInv(old(Idle()), Idle());
    }

    /** Loads the order, settles its lines one by one and changes its status last. */
    method SettleOrder(me: nat, o: OrderId, v: Verdict, reason: string, ghost start: State) returns (ok: bool)
      requires Inv(start) && me !in others && Reaches(start, Amid(Now(), others, me, Loading(o, v, reason)))
      modifies this
      ensures me !in others && Reaches(start, Idle())
      ensures ok && o in orders ==> orders[o].status == StatusFor(v) && Outstanding(Now(), o) == 0
      ensures o in old(orders) ==> o in orders
      ensures network.Responsive? ==> ok
    {
      hide Inv, Reaches, Settle, UpdateStatus, Outstanding, Amid;
      ghost var at := Loading(o, v, reason);
      Interfere(me, at, start);
      var failed := Fails();
      if failed {
        // The order cannot be loaded; the event is redelivered.
        EndStep(start, Now(), others, me, at);
        return false;
      }
      LoadStep(start, Now(), others, me, at);
      if o !in orders {
        // An order this service has no record of: nothing to retry.
        return true;
      }
      var lines := orders[o].lines;
      for i := 0 to |lines|
        invariant me !in others && Reaches(start, Amid(Now(), others, me, Settling(o, lines, v, reason, i)))
        invariant o in orders
      {
        at := Settling(o, lines, v, reason, i);
        Interfere(me, at, start);
        ghost var before := Now();
        var settled, reply := CatalogSettle(v, Key(o, lines[i].product));
        SettleLineStep(start, before, others, me, at, reply, Now());
        if !settled {
          // The order stays pending and the event is redelivered.
          return false;
        }
      }
      at := Settling(o, lines, v, reason, |lines|);
      Interfere(me, at, start);
      ghost var before := Now();
      var r, reply := UpdateOrderStatus(o, v, ReasonFor(v, reason));
      CloseStep(start, before, others, me, at, reply, Now());
      // An order already settled the other way is left as it is.
      return r.Updated? || r.InvalidTransition?;
    }

    // ---- The payment handlers ----

    /** Inserts the row unless the unique index on the order id rejects it. */
    method RecordCharge(p: Payment) returns (r: InsertResult, ghost reply: Reply)
      modifies this`payments
      ensures payments == if reply.Unreached? || p.order in old(payments) then old(payments)
                          else old(payments)[p.order := p]
      ensures r == if !reply.Answered? then Failure else if p.order in old(payments) then AlreadyCharged else Recorded
      ensures network.Responsive? ==> reply.Answered?
    {
      var failed := Fails();
      if failed {
        return Failure, Unreached;
      }
      var taken := p.order in payments;
      if !taken {
        payments := payments[p.order := p];
      }
      failed := Fails();
      if failed {
        return Failure, Lost;
      }
      return if taken then AlreadyCharged else Recorded, Answered;
    }

    method PublishMessage(m: Message) returns (ok: bool, ghost reply: Reply)
      modifies this`sent
      ensures sent == if reply.Unreached? then old(sent) else old(sent) + {m}
      ensures ok <==> reply.Answered?
      ensures network.Responsive? ==> reply.Answered?
    {
      var failed := Fails();
      if failed {
        return false, Unreached;
      }
      sent := sent + {m};
      failed := Fails();
      if failed {
        return false, Lost;
      }
      return true, Answered;
    }

    /** The processor charges the card, or says why not. */
    method AskProcessor(me: nat, o: OrderId, amount: int) returns (error: Option<string>)
      modifies this`answers
      ensures answers == old(answers) + [match error
                                         case None => Answer(me, o, amount, Succeeded, "")
                                         case Some(why) => Answer(me, o, amount, Failed, why)]
    {
      var approved: bool := *;
      if approved {
        answers := answers + [Answer(me, o, amount, Succeeded, "")];
        return None;
      }
      var why: string := *;
      answers := answers + [Answer(me, o, amount, Failed, why)];
      return Some(why);
    }

    /** Looks the order's payment up, else charges and inserts, else reloads the row
        that won the race: the order's one payment, whoever inserted it. */
    method SettlePayment(me: nat, o: OrderId, amount: int, viaSaga: bool, ghost start: State)
      returns (settled: Option<Payment>)
      requires me !in others && Reaches(start, Amid(Now(), others, me, Looking(o, amount, viaSaga)))
      modifies this
      ensures me !in others
      ensures settled.None? ==> Reaches(start, Idle())
      ensures settled.Some? ==> Reaches(start, Amid(Now(), others, me, Report(settled.value, viaSaga)))
      ensures settled.Some? && Inv(start) ==> settled.value.order == o
      ensures network.Responsive? && Inv(start) ==> settled.Some?
      ensures AsksOnce(me, o, amount, old(answers), answers)
    {
      hide Inv, Reaches, Amid, AsksOnce, TellsNothing, Extends, KeepsPrices;
      ghost var at := Looking(o, amount, viaSaga);
      Interfere(me, at, start);
      AsksNothing(me, o, amount, old(answers), answers);
      var failed := Fails();
      if failed {
        EndStep(start, Now(), others, me, at);
        return None;
      }
      LookUpStep(start, Now(), others, me, at);
      if o in payments {
        RowsKnowTheirOrder(start, Now(), others, me, Report(payments[o], viaSaga), o);
        return Some(payments[o]);
      }
      at := Charging(o, amount, viaSaga);
      ghost var told := answers;
      Interfere(me, at, start);
      TellsNothingOn(me, old(answers), told, answers);
      ghost var before := Now();
      var error := AskProcessor(me, o, amount);
      var p := Payment(o, amount, Succeeded, "", viaSaga);
      if error.Some? {
        p := Payment(o, amount, Failed, error.value, viaSaga);
      }
      AsksNow(me, Answer(me, o, amount, p.verdict, p.reason), old(answers), before.answers);
      ChargeStep(start, before, others, me, at, p.verdict, p.reason, Now());
      at := Storing(p);
      told := answers;
      Interfere(me, at, start);
      AsksNoMore(me, o, amount, old(answers), told, answers);
      before := Now();
      var r, reply := RecordCharge(p);
      InsertStep(start, before, others, me, at, reply, Now());
      match r
      case Failure => return None;
      case Recorded => return Some(p);
      case AlreadyCharged =>
        at := Reloading(o, viaSaga);
        told := answers;
        Interfere(me, at, start);
        AsksNoMore(me, o, amount, old(answers), told, answers);
        failed := Fails();
      if failed {
          EndStep(start, Now(), others, me, at);
          return None;
        }
        ReloadStep(start, Now(), others, me, at);
        if o !in payments {
          return None;
        }
        RowsKnowTheirOrder(start, Now(), others, me, Report(payments[o], viaSaga), o);
        return Some(payments[o]);
    }

    /** Charges for an order at most once on the record, and publishes the outcome of
        the stored row. */
    method HandleOrderCreated(me: nat, m: Message) returns (ok: bool)
      requires Inv(Idle()) && me !in others && m in sent && m.OrderCreated?
      modifies this
      ensures me !in others && Reaches(old(Idle()), Idle()) && Inv(Idle())
      ensures ok ==> m.order in payments && OutcomeOf(payments[m.order]) in sent
      ensures network.Responsive? ==> ok
      ensures AsksOnce(me, m.order, m.amount, old(answers), answers)
    {
      hide Inv, Reaches, Amid, AsksOnce, TellsNothing, Extends;
      ghost var start := Idle();
      Enters(Now(), others, me, Deliver(me, m), Now(), Looking(m.order, m.amount, true));
      var settled := SettlePayment(me, m.order, m.amount, true, start);
      if settled.None? {
        ReachesKeepsInv(start, Idle());
        return false;
      }
      ghost var at := Publishing(settled.value);
      ghost var told := answers;
      Interfere(me, at, start);
      AsksNoMore(me, m.order, m.amount, old(answers), told, answers);
      ghost var before := Now();
      var published, reply := PublishMessage(OutcomeOf(settled.value));
      PublishStep(start, before, others, me, at, reply, Now());
      ReachesKeepsInv(start, Idle());
      return published;
    }

    /** The HTTP route: every caller that gets an answer gets the stored row. */
    method ChargeOverHttp(me: nat, o: OrderId, amount: int) returns (answer: Option<Payment>)
      requires Inv(Idle()) && me !in others
      modifies this
      ensures me !in others && Reaches(old(Idle()), Idle()) && Inv(Idle())
      ensures amount <= 0 ==> answer.None? && Idle() == old(Idle())
      ensures answer.Some? ==> o in payments && payments[o] == answer.value
      ensures network.Responsive? && amount > 0 ==> answer.Some?
      ensures AsksOnce(me, o, amount, old(answers), answers)
    {
      hide Inv, Reaches, Amid, AsksOnce;
      ghost var start := Idle();
      if amount <= 0 {
        AsksNothing(me, o, amount, answers, answers);
        ReachesSelf(start);
        return None;
      }
      Enters(Now(), others, me, HttpCharge(me, o, amount), Now(), Looking(o, amount, false));
      answer := SettlePayment(me, o, amount, false, start);
      if answer.Some? {
        ReportedIsStored(start, Now(), others, me, Shown(answer.value));
        EndStep(start, Now(), others, me, Shown(answer.value));
      }
      ReachesKeepsInv(start, Idle());
    }
  }

  lemma OutcomesAreKnown(s: State, m: Message)
    requires Inv(s) && m in s.world.sent
    ensures m.order in s.world.orders
  {
    hide Sound, FateOf, OrderOk, UnpublishedOk;
    assert MessageOk(s.world, m);
  }

  lemma RowsKnowTheirOrder(start: State, w: World, others: map<nat, Proc>, me: nat, at: Proc, o: OrderId)
    requires Reaches(start, Amid(w, others, me, at)) && o in w.payments
    ensures Inv(start) ==> w.payments[o].order == o
  {
    hide Reaches, ProcOk, CreatorsDiffer;
    if Inv(start) {
      ReachesKeepsInv(start, Amid(w, others, me, at));
      assert PaymentOk(w, o);
    }
  }

  lemma FinishedIsSettled(start: State, w: World, others: map<nat, Proc>, me: nat, o: OrderId, v: Verdict)
    requires Inv(start) && Reaches(start, Amid(w, others, me, Finished(o, v)))
    ensures o in w.orders && w.orders[o].status == StatusFor(v) && Outstanding(w, o) == 0
  {
    hide Reaches, FateOf, Sound, Outstanding, OrderOk;
    var s := Amid(w, others, me, Finished(o, v));
    ReachesKeepsInv(start, s);
    assert ProcOk(s.world, s.procs[me]);
    SettledIsFinal(w, o);
  }
}
