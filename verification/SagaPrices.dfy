/** No price ever changes, so every order is charged what the catalog asks. */
module SagaPrices {
  import opened Catalog
  import opened Saga
  import opened SagaInvariant
  import opened SagaSteps
  import opened SagaTheorems

  /** Products stay, at the price they were created with. */
  ghost predicate KeepsPrices(t: Tables, t': Tables) {
    forall p :: p in t.products ==> p in t'.products && t'.products[p].price == t.products[p].price
  }

  lemma CallsKeepPrices(t: Tables, r: Request)
    ensures KeepsPrices(t, Serve(t, r).0)
  {
  }

  lemma PerformKeepsPrices(s: State, a: Action)
    ensures KeepsPrices(s.world.catalog, Perform(s, a).world.catalog)
  {
    hide Reserve, Release, Commit, AddStock, CreateProduct, ByProduct, UpdateStatus, KeepsPrices;
    var t := s.world.catalog;
    Unchanged(t);
    if Enabled(s, a) {
      match a
      case Restock(p, delta) => CallsKeepPrices(t, AddStockRequest(p, delta));
      case NewProduct(p, price, stock) => CallsKeepPrices(t, CreateRequest(p, price, stock));
      case ReserveLine(pid, _) =>
        var q := s.procs[pid];
        CallsKeepPrices(t, ReserveRequest(Key(q.order, q.lines[q.done].product), q.lines[q.done].units));
      case UndoLine(pid, _) =>
        var q := s.procs[pid];
        CallsKeepPrices(t, ReleaseRequest(Key(q.order, q.lines[q.done].product)));
      case SettleLine(pid, _) =>
        var q := s.procs[pid];
        CallsKeepPrices(t, ReleaseRequest(Key(q.order, q.lines[q.done].product)));
        CallsKeepPrices(t, CommitRequest(Key(q.order, q.lines[q.done].product)));
      case _ =>
    }
  }

  lemma Unchanged(t: Tables)
    ensures KeepsPrices(t, t)
  {
  }

  lemma KeepsPricesOn(a: Tables, b: Tables, c: Tables)
    requires KeepsPrices(a, b) && KeepsPrices(b, c)
    ensures KeepsPrices(a, c)
  {
  }

  ghost predicate AtCatalogPrice(t: Tables, lines: seq<Line>) {
    forall i :: 0 <= i < |lines| ==>
      lines[i].product in t.products && lines[i].price == t.products[lines[i].product].price
  }

  ghost predicate PricedOk(s: State) {
    && (forall o :: o in s.world.orders ==> AtCatalogPrice(s.world.catalog, s.world.orders[o].lines))
    && (forall i :: i in s.procs && (s.procs[i].Pricing? || s.procs[i].Reserving?) ==>
          AtCatalogPrice(s.world.catalog, s.procs[i].lines))
  }

  lemma SortedAtCatalogPrice(t: Tables, lines: seq<Line>)
    requires AtCatalogPrice(t, lines)
    ensures AtCatalogPrice(t, ByProduct(lines))
  {
    hide ByProduct, Total;
    SortingKeepsLines(lines);
    var sorted := ByProduct(lines);
    forall i | 0 <= i < |sorted|
      ensures sorted[i].product in t.products && sorted[i].price == t.products[sorted[i].product].price
    {
      assert sorted[i] in multiset(lines);
    }
  }

  lemma StillAtCatalogPrice(t: Tables, t': Tables)
    requires KeepsPrices(t, t')
    ensures forall lines :: AtCatalogPrice(t, lines) ==> AtCatalogPrice(t', lines)
  {
  }

  lemma PricedStaysOk(s: State, a: Action)
    requires PricedOk(s)
    ensures PricedOk(Perform(s, a))
  {
    PerformKeepsPrices(s, a);
    StillAtCatalogPrice(s.world.catalog, Perform(s, a).world.catalog);
    if Enabled(s, a) {
      if a.PriceLine? {
        PricingStaysOk(s, a.pid);
      } else if a.Record? {
        RecordingStaysOk(s, a.pid, a.reply);
      } else {
        NothingPriced(s, a);
        hide AtCatalogPrice, Step, Enabled;
      }
    }
  }

  lemma PricingStaysOk(s: State, pid: nat)
    requires PricedOk(s) && Enabled(s, PriceLine(pid))
    ensures PricedOk(Step(s, PriceLine(pid)))
  {
    var p := s.procs[pid];
    assert AtCatalogPrice(s.world.catalog, p.lines);
  }

  lemma RecordingStaysOk(s: State, pid: nat, reply: Reply)
    requires PricedOk(s) && Enabled(s, Record(pid, reply))
    ensures PricedOk(Step(s, Record(pid, reply)))
  {
    SortedAtCatalogPrice(s.world.catalog, s.procs[pid].lines);
    hide AtCatalogPrice, ByProduct;
  }

  /** Any other step leaves the lines of orders and of creating runs as they were. */
  lemma NothingPriced(s: State, a: Action)
    requires Enabled(s, a) && !a.PriceLine? && !a.Record?
    ensures var s' := Step(s, a);
            && (forall o :: o in s'.world.orders ==>
                  o in s.world.orders && s'.world.orders[o].lines == s.world.orders[o].lines)
            && (forall i :: i in s'.procs && (s'.procs[i].Pricing? || s'.procs[i].Reserving?) ==>
                  || s'.procs[i].lines == []
                  || (i in s.procs && (s.procs[i].Pricing? || s.procs[i].Reserving?) &&
                      s'.procs[i].lines == s.procs[i].lines))
  {
    hide Reserve, Release, Settle, AddStock, CreateProduct, ValidRequest;
  }

  lemma {:induction false} RunsStayPriced(actions: seq<Action>)
    ensures PricedOk(Run(EMPTY, actions))
  {
    hide Perform, AtCatalogPrice;
    if actions != [] {
      RunsStayPriced(actions[..|actions| - 1]);
      PricedStaysOk(Run(EMPTY, actions[..|actions| - 1]), actions[|actions| - 1]);
    }
  }

  /** Every line of every order is priced at what the catalog asks for the product, then
      and ever after. */
  lemma OrdersAreAtCatalogPrice(before: seq<Action>, after: seq<Action>, o: OrderId)
    requires o in Run(EMPTY, before).world.orders
    ensures AtCatalogPrice(Run(EMPTY, before + after).world.catalog, Run(EMPTY, before).world.orders[o].lines)
  {
    hide Run, AtCatalogPrice;
    RunsStayPriced(before + after);
    RunAppend(EMPTY, before, after);
    RunExtends(Run(EMPTY, before), after);
  }
}
