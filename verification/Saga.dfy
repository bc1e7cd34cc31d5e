/** The checkout saga as a step system. Three services share nothing but the
    messages they publish; every database transaction, catalog call and publish is
    one step, and a handler run is a process that may be anywhere between two. */
module Saga {
  import opened Catalog

  // ---- What the services store and publish ----

  datatype Item = Item(product: ProductId, units: int)

  datatype Line = Line(product: ProductId, units: int, price: int)

  datatype Status = Pending | Confirmed | Cancelled

  /** An order row with its item rows, which every read returns by product id. */
  datatype Order = Order(status: Status, total: int, reason: string, lines: seq<Line>)

  datatype Verdict = Succeeded | Failed

  /** A payments row. `viaSaga` tells apart the two services' ways to insert one. */
  datatype Payment = Payment(order: OrderId, amount: int, verdict: Verdict, reason: string, viaSaga: bool)

  datatype Message =
    | OrderCreated(order: OrderId, amount: int)
    | PaymentSucceeded(order: OrderId, amount: int)
    | PaymentFailed(order: OrderId, reason: string)

  /** What the payment processor told the run that asked it. */
  datatype Answer = Answer(pid: nat, order: OrderId, amount: int, verdict: Verdict, reason: string)

  /** All durable state. A message once sent may be delivered any number of
      times, in any order, or never; `drawn` are the order ids ever generated and
      `answers` all that the processor ever said, in order. */
  datatype World = World(
    catalog: Tables,
    orders: map<OrderId, Order>,
    payments: map<OrderId, Payment>,
    sent: set<Message>,
    drawn: set<OrderId>,
    answers: seq<Answer>)

  /** A run in progress, at the step it will take next. */
  datatype Proc =
    // createOrder
    | Pricing(order: OrderId, request: seq<Item>, lines: seq<Line>, total: int)
    | Reserving(order: OrderId, lines: seq<Line>, total: int, done: nat)
    | Announcing(order: OrderId, total: int)
      // releaseAll over the first `held` lines; `stranded` are holds it will not undo
    | Undoing(order: OrderId, lines: seq<Line>, held: nat, done: nat, stranded: set<ProductId>)
    // HandleOrderCreated and the HTTP charge
    | Looking(order: OrderId, amount: int, viaSaga: bool)
    | Charging(order: OrderId, amount: int, viaSaga: bool)
    | Storing(payment: Payment)
    | Reloading(order: OrderId, viaSaga: bool)
    | Publishing(payment: Payment)
    | Shown(payment: Payment)
    // HandlePaymentSucceeded and HandlePaymentFailed
    | Loading(order: OrderId, verdict: Verdict, reason: string)
    | Settling(order: OrderId, lines: seq<Line>, verdict: Verdict, reason: string, done: nat)
    | Finished(order: OrderId, verdict: Verdict)

  datatype State = State(world: World, procs: map<nat, Proc>)

  const EMPTY := State(World(Tables(map[], map[], []), map[], map[], {}, {}, []), map[])

  // ---- Pieces of the handlers ----

  const MAX_ITEMS := 50

  predicate ValidRequest(request: seq<Item>) {
    && 0 < |request| <= MAX_ITEMS
    && (forall i :: 0 <= i < |request| ==> request[i].units > 0)
    && (forall i, j :: 0 <= i < j < |request| ==> request[i].product != request[j].product)
  }

  function Total(lines: seq<Line>): int {
    if lines == [] then 0
    else Total(lines[..|lines| - 1]) + lines[|lines| - 1].price * lines[|lines| - 1].units
  }

  function InsertByProduct(lines: seq<Line>, line: Line): seq<Line> {
    if lines == [] || lines[|lines| - 1].product <= line.product then lines + [line]
    else InsertByProduct(lines[..|lines| - 1], line) + [lines[|lines| - 1]]
  }

  /** ORDER BY product_id. */
  function ByProduct(lines: seq<Line>): seq<Line> {
    if lines == [] then []
    else InsertByProduct(ByProduct(lines[..|lines| - 1]), lines[|lines| - 1])
  }

  function OutcomeOf(p: Payment): Message {
    match p.verdict
    case Succeeded => PaymentSucceeded(p.order, p.amount)
    case Failed => PaymentFailed(p.order, p.reason)
  }

  function StatusFor(v: Verdict): Status {
    if v.Succeeded? then Confirmed else Cancelled
  }

  function Settle(t: Tables, v: Verdict, k: Key): (Tables, Outcome) {
    if v.Succeeded? then Commit(t, k) else Release(t, k)
  }

  /** The guarded status change: only a pending order moves. */
  function UpdateStatus(orders: map<OrderId, Order>, o: OrderId, v: Verdict, reason: string): map<OrderId, Order> {
    if o in orders && orders[o].status.Pending?
    then orders[o := orders[o].(status := StatusFor(v), reason := reason)]
    else orders
  }

  function ReasonFor(v: Verdict, reason: string): string {
    if v.Succeeded? then "" else if reason == "" then "payment failed" else reason
  }

  // ---- Steps ----

  /** How a remote effect ends: done and answered, done but reported as an error,
      or never done. */
  datatype Reply = Answered | Lost | Unreached

  datatype Action =
    | Restock(product: ProductId, delta: int)
    | NewProduct(product: ProductId, price: int, stock: int)
    | Accept(pid: nat, order: OrderId, request: seq<Item>)
    | PriceLine(pid: nat)
    | ReserveLine(pid: nat, reply: Reply)
    | UndoLine(pid: nat, reached: bool)
    | Record(pid: nat, reply: Reply)
    | Announce(pid: nat, reply: Reply)
    | Deliver(pid: nat, message: Message)
    | HttpCharge(pid: nat, order: OrderId, amount: int)
    | LookUp(pid: nat)
    | Charge(pid: nat, verdict: Verdict, reason: string)
    | Insert(pid: nat, reply: Reply)
    | Reload(pid: nat)
    | Publish(pid: nat, reply: Reply)
    | Load(pid: nat)
    | SettleLine(pid: nat, reply: Reply)
    | Close(pid: nat, reply: Reply)
    | Crash(pid: nat)

  function With(s: State, w: World, pid: nat, p: Proc): State {
    State(w, s.procs[pid := p])
  }

  /** The run ends here: with an error, with nothing left to do, or in a crash. */
  function Without(s: State, w: World, pid: nat): State {
    State(w, s.procs - {pid})
  }

  function DoPrice(s: State, pid: nat, p: Proc): State
    requires p.Pricing? && |p.lines| < |p.request|
  {
    var item := p.request[|p.lines|];
    if item.product !in s.world.catalog.products then With(s, s.world, pid, Undoing(p.order, [], 0, 0, {}))
    else
      var price := s.world.catalog.products[item.product].price;
      var lines := p.lines + [Line(item.product, item.units, price)];
      var total := p.total + price * item.units;
      if |lines| < |p.request| then With(s, s.world, pid, Pricing(p.order, p.request, lines, total))
      else With(s, s.world, pid, Reserving(p.order, lines, total, 0))
  }

  function DoReserve(s: State, pid: nat, p: Proc, reply: Reply): State
    requires p.Reserving? && p.done < |p.lines|
  {
    var line := p.lines[p.done];
    var k := Key(p.order, line.product);
    var (t, outcome) := Reserve(s.world.catalog, k, line.units);
    var undo := Undoing(p.order, p.lines, p.done, 0, {});
    match reply
    case Answered =>
      if outcome.Done? then
        With(s, s.world.(catalog := t), pid, Reserving(p.order, p.lines, p.total, p.done + 1))
      else With(s, s.world, pid, undo)
    case Lost =>
      With(s, s.world.(catalog := t), pid,
           Undoing(p.order, p.lines, p.done, 0, if outcome.Done? then {line.product} else {}))
    case Unreached =>
      With(s, s.world, pid, undo)
  }

  function DoUndo(s: State, pid: nat, p: Proc, reached: bool): State
    requires p.Undoing? && p.done < p.held <= |p.lines|
  {
    var product := p.lines[p.done].product;
    var (t, outcome) := Release(s.world.catalog, Key(p.order, product));
    if reached && outcome.Done? then
      With(s, s.world.(catalog := t), pid, Undoing(p.order, p.lines, p.held, p.done + 1, p.stranded))
    else
      With(s, s.world, pid, Undoing(p.order, p.lines, p.held, p.done + 1, p.stranded + {product}))
  }

  function DoRecord(s: State, pid: nat, p: Proc, reply: Reply): State
    requires p.Reserving? && p.done == |p.lines|
  {
    var w := s.world;
    var undo := Undoing(p.order, p.lines, |p.lines|, 0, {});
    var inserted := w.(orders := w.orders[p.order := Order(Pending, p.total, "", ByProduct(p.lines))]);
    if reply.Unreached? || p.order in w.orders || p.lines == [] then With(s, w, pid, undo)
    else if reply.Lost? then With(s, inserted, pid, undo)
    else With(s, inserted, pid, Announcing(p.order, p.total))
  }

  function DoAnnounce(s: State, pid: nat, p: Proc, reply: Reply): State
    requires p.Announcing?
  {
    if reply.Unreached? then Without(s, s.world, pid)
    else Without(s, s.world.(sent := s.world.sent + {OrderCreated(p.order, p.total)}), pid)
  }

  function Receive(m: Message): Proc {
    match m
    case OrderCreated(o, amount) => Looking(o, amount, true)
    case PaymentSucceeded(o, amount) => Loading(o, Succeeded, "")
    case PaymentFailed(o, reason) => Loading(o, Failed, reason)
  }

  /** A settled payment is published by the saga and shown by the HTTP route. */
  function Report(p: Payment, viaSaga: bool): Proc {
    if viaSaga then Publishing(p) else Shown(p)
  }

  function DoLookUp(s: State, pid: nat, p: Proc): State
    requires p.Looking?
  {
    if p.order in s.world.payments then With(s, s.world, pid, Report(s.world.payments[p.order], p.viaSaga))
    else With(s, s.world, pid, Charging(p.order, p.amount, p.viaSaga))
  }

  function DoInsert(s: State, pid: nat, p: Proc, reply: Reply): State
    requires p.Storing?
  {
    var w, o := s.world, p.payment.order;
    if reply.Unreached? then Without(s, w, pid)
    else if o in w.payments then
      if reply.Lost? then Without(s, w, pid) else With(s, w, pid, Reloading(o, p.payment.viaSaga))
    else
      var stored := w.(payments := w.payments[o := p.payment]);
      if reply.Lost? then Without(s, stored, pid)
      else With(s, stored, pid, Report(p.payment, p.payment.viaSaga))
  }

  function DoPublish(s: State, pid: nat, p: Proc, reply: Reply): State
    requires p.Publishing?
  {
    if reply.Unreached? then Without(s, s.world, pid)
    else Without(s, s.world.(sent := s.world.sent + {OutcomeOf(p.payment)}), pid)
  }

  function DoLoad(s: State, pid: nat, p: Proc): State
    requires p.Loading?
  {
    if p.order !in s.world.orders then Without(s, s.world, pid)
    else With(s, s.world, pid, Settling(p.order, s.world.orders[p.order].lines, p.verdict, p.reason, 0))
  }

  function DoSettle(s: State, pid: nat, p: Proc, reply: Reply): State
    requires p.Settling? && p.done < |p.lines|
  {
    var w := s.world;
    var (t, outcome) := Settle(w.catalog, p.verdict, Key(p.order, p.lines[p.done].product));
    if reply.Unreached? then Without(s, w, pid)
    else if reply.Lost? || !outcome.Done? then Without(s, w.(catalog := t), pid)
    else With(s, w.(catalog := t), pid, Settling(p.order, p.lines, p.verdict, p.reason, p.done + 1))
  }

  function DoClose(s: State, pid: nat, p: Proc, reply: Reply): State
    requires p.Settling? && p.done == |p.lines|
  {
    var w := s.world;
    var closed := w.(orders := UpdateStatus(w.orders, p.order, p.verdict, ReasonFor(p.verdict, p.reason)));
    if reply.Unreached? || p.order !in w.orders then Without(s, w, pid)
    else if reply.Lost? then Without(s, closed, pid)
    else With(s, closed, pid, Finished(p.order, p.verdict))
  }

  predicate Enabled(s: State, a: Action) {
    match a
    case Restock(_, _) => true
    case NewProduct(_, _, _) => true
    case Accept(pid, o, request) => pid !in s.procs && o !in s.world.drawn && ValidRequest(request)
    case Deliver(pid, m) => pid !in s.procs && m in s.world.sent
    case HttpCharge(pid, o, amount) => pid !in s.procs && amount > 0
    case PriceLine(pid) => pid in s.procs && s.procs[pid].Pricing? && |s.procs[pid].lines| < |s.procs[pid].request|
    case ReserveLine(pid, _) => pid in s.procs && s.procs[pid].Reserving? && s.procs[pid].done < |s.procs[pid].lines|
    case UndoLine(pid, _) =>
      pid in s.procs && s.procs[pid].Undoing? && s.procs[pid].done < s.procs[pid].held <= |s.procs[pid].lines|
    case Record(pid, _) => pid in s.procs && s.procs[pid].Reserving? && s.procs[pid].done == |s.procs[pid].lines|
    case Announce(pid, _) => pid in s.procs && s.procs[pid].Announcing?
    case LookUp(pid) => pid in s.procs && s.procs[pid].Looking?
    case Charge(pid, _, _) => pid in s.procs && s.procs[pid].Charging?
    case Insert(pid, _) => pid in s.procs && s.procs[pid].Storing?
    case Reload(pid) => pid in s.procs && s.procs[pid].Reloading?
    case Publish(pid, _) => pid in s.procs && s.procs[pid].Publishing?
    case Load(pid) => pid in s.procs && s.procs[pid].Loading?
    case SettleLine(pid, _) => pid in s.procs && s.procs[pid].Settling? && s.procs[pid].done < |s.procs[pid].lines|
    case Close(pid, _) => pid in s.procs && s.procs[pid].Settling? && s.procs[pid].done == |s.procs[pid].lines|
    case Crash(pid) => pid in s.procs
  }

  function Step(s: State, a: Action): State
    requires Enabled(s, a)
  {
    var w := s.world;
    match a
    case Restock(product, delta) => s.(world := w.(catalog := AddStock(w.catalog, product, delta).0))
    case NewProduct(product, price, stock) =>
      s.(world := w.(catalog := CreateProduct(w.catalog, product, price, stock).0))
    case Accept(pid, o, request) => With(s, w.(drawn := w.drawn + {o}), pid, Pricing(o, request, [], 0))
    case PriceLine(pid) => DoPrice(s, pid, s.procs[pid])
    case ReserveLine(pid, reply) => DoReserve(s, pid, s.procs[pid], reply)
    case UndoLine(pid, reached) => DoUndo(s, pid, s.procs[pid], reached)
    case Record(pid, reply) => DoRecord(s, pid, s.procs[pid], reply)
    case Announce(pid, reply) => DoAnnounce(s, pid, s.procs[pid], reply)
    case Deliver(pid, m) => With(s, w, pid, Receive(m))
    case HttpCharge(pid, o, amount) => With(s, w, pid, Looking(o, amount, false))
    case LookUp(pid) => DoLookUp(s, pid, s.procs[pid])
    case Charge(pid, v, reason) =>
      var p := s.procs[pid];
      var why := if v.Succeeded? then "" else reason;
      With(s, w.(answers := w.answers + [Answer(pid, p.order, p.amount, v, why)]), pid,
           Storing(Payment(p.order, p.amount, v, why, p.viaSaga)))
    case Insert(pid, reply) => DoInsert(s, pid, s.procs[pid], reply)
    case Reload(pid) =>
      var p := s.procs[pid];
      if p.order in w.payments then With(s, w, pid, Report(w.payments[p.order], p.viaSaga)) else Without(s, w, pid)
    case Publish(pid, reply) => DoPublish(s, pid, s.procs[pid], reply)
    case Load(pid) => DoLoad(s, pid, s.procs[pid])
    case SettleLine(pid, reply) => DoSettle(s, pid, s.procs[pid], reply)
    case Close(pid, reply) => DoClose(s, pid, s.procs[pid], reply)
    case Crash(pid) => Without(s, w, pid)
  }

  /** The action is a step of this run, or starts it. */
  predicate Uses(a: Action, pid: nat) {
    !a.Restock? && !a.NewProduct? && a.pid == pid
  }

  /** An action that is not enabled changes nothing. */
  function Perform(s: State, a: Action): State {
    if Enabled(s, a) then Step(s, a) else s
  }

  /** Every finite sequence of actions is a run. */
  function Run(s: State, actions: seq<Action>): State {
    if actions == [] then s
    else Perform(Run(s, actions[..|actions| - 1]), actions[|actions| - 1])
  }

  // ---- What has become of one line of an order ----

  /** The stock movements of one key, in order. */
  function Story(j: seq<Movement>, k: Key): seq<Movement> {
    if j == [] then []
    else
      var n := |j| - 1;
      Story(j[..n], k) + (if j[n].Moved? && j[n].key == k then [j[n]] else [])
  }

  datatype Fate = Untouched | Held(units: int) | GivenBack(units: int) | Consumed(units: int) | Irregular

  /** The fate of an order's line: every movement it ever saw and the row it has.
      Anything but one hold, at most once settled, is irregular. */
  function FateOf(t: Tables, k: Key): Fate {
    var story := Story(t.journal, k);
    if k in t.rows then
      if story == [Moved(Hold, k, t.rows[k])] then Held(t.rows[k]) else Irregular
    else if story == [] then Untouched
    else
      var units := story[0].units;
      if story == [Moved(Hold, k, units), Moved(Return, k, units)] then GivenBack(units)
      else if story == [Moved(Hold, k, units), Moved(Consume, k, units)] then Consumed(units)
      else Irregular
  }

  function SettledFate(v: Verdict, units: int): Fate {
    if v.Succeeded? then Consumed(units) else GivenBack(units)
  }
}
