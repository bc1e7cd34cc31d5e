/** The catalog's stock and reservation ledger. Every store call is one database
    transaction, so one atomic step; the journal records what each one moved. */
module Catalog {
  import opened Arith

  type ProductId = int
  type OrderId = int

  datatype Key = Key(order: OrderId, product: ProductId)

  datatype Product = Product(price: nat, stock: int, reserved: int)

  datatype Kind = Hold | Return | Consume

  datatype Movement =
    | Stocked(product: ProductId, units: int)
    | Moved(kind: Kind, key: Key, units: int)

  /** The products and reservations tables, and the history of stock movements. */
  datatype Tables = Tables(
    products: map<ProductId, Product>,
    rows: map<Key, int>,
    journal: seq<Movement>)

  datatype Outcome = Done | NotFound | Insufficient | Invalid

  function Logged(t: Tables, m: Movement): Tables {
    t.(journal := t.journal + [m])
  }

  /** Holds units of a product for an order, at most once per order and product. */
  function Reserve(t: Tables, k: Key, units: int): (Tables, Outcome) {
    if units <= 0 then (t, Invalid)
    else if k.product !in t.products then (t, NotFound)
    else if k in t.rows then (t, Done)
    else
      var p := t.products[k.product];
      if p.stock - p.reserved < units then (t, Insufficient)
      else
        var held := t.(products := t.products[k.product := p.(reserved := p.reserved + units)],
                       rows := t.rows[k := units]);
        (Logged(held, Moved(Hold, k, units)), Done)
  }

  /** Deletes an order's hold and gives its units back. */
  function Release(t: Tables, k: Key): (Tables, Outcome) {
    if k.product !in t.products then (t, NotFound)
    else if k !in t.rows then (t, Done)
    else
      var units, p := t.rows[k], t.products[k.product];
      var given := t.(products := t.products[k.product := p.(reserved := Max(0, p.reserved - units))],
                      rows := t.rows - {k});
      (Logged(given, Moved(Return, k, units)), Done)
  }

  /** Deletes an order's hold and takes its units out of stock. */
  function Commit(t: Tables, k: Key): (Tables, Outcome) {
    if k.product !in t.products then (t, NotFound)
    else if k !in t.rows then (t, Done)
    else
      var units, p := t.rows[k], t.products[k.product];
      var taken := t.(products := t.products[k.product := p.(stock := Max(0, p.stock - units),
                                                             reserved := Max(0, p.reserved - units))],
                      rows := t.rows - {k});
      (Logged(taken, Moved(Consume, k, units)), Done)
  }

  function AddStock(t: Tables, product: ProductId, delta: int): (Tables, Outcome) {
    if delta <= 0 then (t, Invalid)
    else if product !in t.products then (t, NotFound)
    else
      var p := t.products[product];
      (Logged(t.(products := t.products[product := p.(stock := p.stock + delta)]), Stocked(product, delta)), Done)
  }

  function CreateProduct(t: Tables, product: ProductId, price: int, stock: int): (Tables, Outcome) {
    if price < 0 || stock < 0 || product in t.products then (t, Invalid)
    else (Logged(t.(products := t.products[product := Product(price, stock, 0)]), Stocked(product, stock)), Done)
  }

  // ---- The store itself ----

  class Store {
    var products: map<ProductId, Product>
    var reservations: map<Key, int>
    ghost var journal: seq<Movement>

    constructor ()
      ensures View() == Tables(map[], map[], [])
    {
      products, reservations, journal := map[], map[], [];
    }

    ghost function View(): Tables
      reads this
    {
      Tables(products, reservations, journal)
    }

    method Reserve(k: Key, units: int) returns (r: Outcome)
      modifies this
      ensures (View(), r) == Serve(old(View()), ReserveRequest(k, units))
    {
      if units <= 0 {
        return Invalid;
      }
      // The foreign key rejects the row before anything else can.
      if k.product !in products {
        return NotFound;
      }
      if k in reservations {
        return Done;
      }
      var p := products[k.product];
      if p.stock - p.reserved < units {
        return Insufficient;
      }
      reservations := reservations[k := units];
      products := products[k.product := p.(reserved := p.reserved + units)];
      journal := journal + [Moved(Hold, k, units)];
      return Done;
    }

    method Release(k: Key) returns (r: Outcome)
      modifies this
      ensures (View(), r) == Serve(old(View()), ReleaseRequest(k))
    {
      if k !in reservations {
        return if k.product in products then Done else NotFound;
      }
      var units := reservations[k];
      if k.product !in products {
        return NotFound;
      }
      reservations := reservations - {k};
      var p := products[k.product];
      products := products[k.product := p.(reserved := Max(0, p.reserved - units))];
      journal := journal + [Moved(Return, k, units)];
      return Done;
    }

    method Commit(k: Key) returns (r: Outcome)
      modifies this
      ensures (View(), r) == Serve(old(View()), CommitRequest(k))
    {
      if k !in reservations {
        return if k.product in products then Done else NotFound;
      }
      var units := reservations[k];
      if k.product !in products {
        return NotFound;
      }
      reservations := reservations - {k};
      var p := products[k.product];
      products := products[k.product := p.(stock := Max(0, p.stock - units),
                                           reserved := Max(0, p.reserved - units))];
      journal := journal + [Moved(Consume, k, units)];
      return Done;
    }

    method AddStock(product: ProductId, delta: int) returns (r: Outcome)
      modifies this
      ensures (View(), r) == Serve(old(View()), AddStockRequest(product, delta))
    {
      if delta <= 0 {
        return Invalid;
      }
      if product !in products {
        return NotFound;
      }
      var p := products[product];
      products := products[product := p.(stock := p.stock + delta)];
      journal := journal + [Stocked(product, delta)];
      return Done;
    }
  }

  // ---- Sums over the journal and over the reservation rows ----

  /** How many movements of a kind a key has seen. */
  function Times(j: seq<Movement>, kind: Kind, k: Key): nat {
    if j == [] then 0
    else
      var n := |j| - 1;
      Times(j[..n], kind, k) + (if j[n].Moved? && j[n].kind == kind && j[n].key == k then 1 else 0)
  }

  /** How many units of a key have moved that way. */
  function Units(j: seq<Movement>, kind: Kind, k: Key): int {
    if j == [] then 0
    else
      var n := |j| - 1;
      Units(j[..n], kind, k) + (if j[n].Moved? && j[n].kind == kind && j[n].key == k then j[n].units else 0)
  }

  /** Units of a product ever put in stock. */
  function Received(j: seq<Movement>, product: ProductId): int {
    if j == [] then 0
    else
      var n := |j| - 1;
      Received(j[..n], product) + (if j[n].Stocked? && j[n].product == product then j[n].units else 0)
  }

  /** Units of a product ever consumed, by any order. */
  function Sold(j: seq<Movement>, product: ProductId): int {
    if j == [] then 0
    else
      var n := |j| - 1;
      Sold(j[..n], product) +
      (if j[n].Moved? && j[n].kind == Consume && j[n].key.product == product then j[n].units else 0)
  }

  lemma JournalSnoc(j: seq<Movement>, m: Movement)
    ensures forall kind, k :: Times(j + [m], kind, k) ==
              Times(j, kind, k) + (if m.Moved? && m.kind == kind && m.key == k then 1 else 0)
    ensures forall kind, k :: Units(j + [m], kind, k) ==
              Units(j, kind, k) + (if m.Moved? && m.kind == kind && m.key == k then m.units else 0)
    ensures forall p :: Received(j + [m], p) ==
              Received(j, p) + (if m.Stocked? && m.product == p then m.units else 0)
    ensures forall p :: Sold(j + [m], p) ==
              Sold(j, p) + (if m.Moved? && m.kind == Consume && m.key.product == p then m.units else 0)
  {
    assert (j + [m])[..|j|] == j;
  }

  /** The units of a product that the reservation rows hold between them. */
  ghost function RowsHeld(rows: map<Key, int>, product: ProductId): int {
    if rows == map[] then 0
    else
      var k :| k in rows;
      RowsHeld(rows - {k}, product) + (if k.product == product then rows[k] else 0)
  }

  lemma {:induction false} RowsHeldWithout(rows: map<Key, int>, product: ProductId, k: Key)
    requires k in rows
    ensures RowsHeld(rows, product) ==
            RowsHeld(rows - {k}, product) + (if k.product == product then rows[k] else 0)
    decreases |rows|
  {
    var first :| first in rows && RowsHeld(rows, product) ==
      RowsHeld(rows - {first}, product) + (if first.product == product then rows[first] else 0);
    if first != k {
      RowsHeldWithout(rows - {first}, product, k);
      RowsHeldWithout(rows - {k}, product, first);
      assert rows - {first} - {k} == rows - {k} - {first};
    }
  }

  lemma RowsHeldWith(rows: map<Key, int>, product: ProductId, k: Key, units: int)
    requires k !in rows
    ensures RowsHeld(rows[k := units], product) ==
            RowsHeld(rows, product) + (if k.product == product then units else 0)
  {
    RowsHeldWithout(rows[k := units], product, k);
    assert rows[k := units] - {k} == rows;
  }

  /** One row's units are part of its product's total. */
  lemma {:induction false} RowWithinTotal(rows: map<Key, int>, k: Key)
    requires k in rows && forall x :: x in rows ==> rows[x] > 0
    ensures rows[k] <= RowsHeld(rows, k.product)
  {
    RowsHeldWithout(rows, k.product, k);
    RowsHeldNatural(rows - {k}, k.product);
  }

  lemma {:induction false} RowsHeldNatural(rows: map<Key, int>, product: ProductId)
    requires forall x :: x in rows ==> rows[x] > 0
    ensures RowsHeld(rows, product) >= 0
    decreases |rows|
  {
    if rows != map[] {
      var k :| k in rows && RowsHeld(rows, product) ==
        RowsHeld(rows - {k}, product) + (if k.product == product then rows[k] else 0);
      RowsHeldNatural(rows - {k}, product);
    }
  }

  // ---- What every interleaving of store calls keeps ----

  function HeldUnits(t: Tables, k: Key): int {
    if k in t.rows then t.rows[k] else 0
  }

  /** A product's row agrees with the reservations and with the stock history. */
  ghost predicate Balanced(t: Tables, product: ProductId)
    requires product in t.products
  {
    var p := t.products[product];
    && p.reserved == RowsHeld(t.rows, product)
    && 0 <= p.reserved <= p.stock
    && p.stock + Sold(t.journal, product) == Received(t.journal, product)
  }

  /** Every unit ever held for a key is still held, was given back or was consumed. */
  ghost predicate Accounted(t: Tables, k: Key) {
    Units(t.journal, Hold, k) == HeldUnits(t, k) + Units(t.journal, Return, k) + Units(t.journal, Consume, k)
  }

  ghost predicate Sound(t: Tables) {
    && (forall k :: k in t.rows ==> k.product in t.products && t.rows[k] > 0)
    && (forall p :: p in t.products ==> Balanced(t, p))
    && (forall k :: Accounted(t, k))
    && (forall p :: p !in t.products ==> Received(t.journal, p) == 0 && Sold(t.journal, p) == 0)
    && (forall i :: 0 <= i < |t.journal| && t.journal[i].Moved? ==> t.journal[i].key.product in t.products)
  }

  datatype Request =
    | ReserveRequest(key: Key, units: int)
    | ReleaseRequest(key: Key)
    | CommitRequest(key: Key)
    | AddStockRequest(product: ProductId, delta: int)
    | CreateRequest(product: ProductId, price: int, stock: int)

  function Serve(t: Tables, r: Request): (Tables, Outcome) {
    match r
    case ReserveRequest(k, units) => Reserve(t, k, units)
    case ReleaseRequest(k) => Release(t, k)
    case CommitRequest(k) => Commit(t, k)
    case AddStockRequest(p, delta) => AddStock(t, p, delta)
    case CreateRequest(p, price, stock) => CreateProduct(t, p, price, stock)
  }

  function ServeAll(rs: seq<Request>): Tables {
    if rs == [] then Tables(map[], map[], [])
    else Serve(ServeAll(rs[..|rs| - 1]), rs[|rs| - 1]).0
  }

  lemma ReserveStaysSound(t: Tables, k: Key, units: int)
    requires Sound(t)
    ensures Sound(Reserve(t, k, units).0)
  {
    hide Times, Units, Received, Sold, RowsHeld;
    var t' := Reserve(t, k, units).0;
    if t' != t {
      JournalSnoc(t.journal, Moved(Hold, k, units));
      assert Accounted(t, k);
      forall p | p in t'.products
        ensures Balanced(t', p)
      {
        assert Balanced(t, p);
        RowsHeldWith(t.rows, p, k, units);
      }
      forall x ensures Accounted(t', x) {
        assert Accounted(t, x);
      }
    }
  }

  /** On a sound ledger neither GREATEST ever clamps: a hold is covered by both
      the reserved and the physical stock. */
  lemma NeverClamps(t: Tables, k: Key)
    requires Sound(t) && k in t.rows
    ensures var p := t.products[k.product];
            t.rows[k] <= p.reserved && t.rows[k] <= p.stock
  {
    RowWithinTotal(t.rows, k);
    assert Balanced(t, k.product);
  }

  lemma SettleStaysSound(t: Tables, k: Key)
    requires Sound(t)
    ensures Sound(Release(t, k).0) && Sound(Commit(t, k).0)
  {
    if k.product in t.products && k in t.rows {
      NeverClamps(t, k);
      DropStaysSound(t, k, Return, Release(t, k).0);
      DropStaysSound(t, k, Consume, Commit(t, k).0);
    }
  }

  lemma DropStaysSound(t: Tables, k: Key, kind: Kind, t': Tables)
    requires Sound(t) && k in t.rows && kind != Hold
    requires t'.rows == t.rows - {k} && t'.journal == t.journal + [Moved(kind, k, t.rows[k])]
    requires var p := t.products[k.product];
             t'.products == t.products[k.product := p.(stock := p.stock - (if kind == Consume then t.rows[k] else 0),
                                                       reserved := p.reserved - t.rows[k])]
    ensures Sound(t')
  {
    hide Times, Units, Received, Sold, RowsHeld;
    NeverClamps(t, k);
    JournalSnoc(t.journal, Moved(kind, k, t.rows[k]));
    forall p | p in t'.products
      ensures Balanced(t', p)
    {
      assert Balanced(t, p);
      RowsHeldWithout(t.rows, p, k);
      RowsHeldNatural(t'.rows, p);
    }
    forall x ensures Accounted(t', x) {
      assert Accounted(t, x);
    }
  }

  lemma AddStockStaysSound(t: Tables, product: ProductId, delta: int)
    requires Sound(t)
    ensures Sound(AddStock(t, product, delta).0)
  {
    hide Times, Units, Received, Sold, RowsHeld;
    JournalSnoc(t.journal, Stocked(product, delta));
    var t' := AddStock(t, product, delta).0;
    forall x ensures Accounted(t', x) {
      assert Accounted(t, x);
    }
    forall p | p in t.products ensures Balanced(t', p) {
      assert Balanced(t, p);
    }
  }

  lemma CreateStaysSound(t: Tables, product: ProductId, price: int, stock: int)
    requires Sound(t)
    ensures Sound(CreateProduct(t, product, price, stock).0)
  {
    hide Times, Units, Received, Sold, RowsHeld;
    var t' := CreateProduct(t, product, price, stock).0;
    if t' != t {
      JournalSnoc(t.journal, Stocked(product, stock));
      RowsHeldOfUnknown(t.rows, product);
      forall x ensures Accounted(t', x) {
        assert Accounted(t, x);
      }
      forall p | p in t'.products ensures Balanced(t', p) {
        if p != product {
          assert Balanced(t, p);
        }
      }
    }
  }

  lemma {:induction false} RowsHeldOfUnknown(rows: map<Key, int>, product: ProductId)
    requires forall k :: k in rows ==> k.product != product
    ensures RowsHeld(rows, product) == 0
    decreases |rows|
  {
    if rows != map[] {
      var k :| k in rows && RowsHeld(rows, product) == RowsHeld(rows - {k}, product);
      RowsHeldOfUnknown(rows - {k}, product);
    }
  }

  lemma ServeStaysSound(t: Tables, r: Request)
    requires Sound(t)
    ensures Sound(Serve(t, r).0)
  {
    match r
    case ReserveRequest(k, units) => ReserveStaysSound(t, k, units);
    case ReleaseRequest(k) => SettleStaysSound(t, k);
    case CommitRequest(k) => SettleStaysSound(t, k);
    case AddStockRequest(p, delta) => AddStockStaysSound(t, p, delta);
    case CreateRequest(p, price, stock) => CreateStaysSound(t, p, price, stock);
  }

  // ---- The ledger against the requests themselves ----

  /** The product has been created by one of the requests. */
  predicate Known(rs: seq<Request>, product: ProductId) {
    exists i :: 0 <= i < |rs| && Creates(rs[i], product)
  }

  predicate Creates(r: Request, product: ProductId) {
    r.CreateRequest? && r.product == product && r.price >= 0 && r.stock >= 0
  }

  /** The units one request puts in stock, after the ones before it. */
  function PutBy(rs: seq<Request>, r: Request, product: ProductId): int {
    match r
    case CreateRequest(_, _, stock) => if Creates(r, product) && !Known(rs, product) then stock else 0
    case AddStockRequest(p, delta) => if p == product && delta > 0 && Known(rs, product) then delta else 0
    case _ => 0
  }

  /** The units the requests put in stock: what the product was created with and every
      positive delta after that. */
  function StockPut(rs: seq<Request>, product: ProductId): int {
    if rs == [] then 0
    else StockPut(rs[..|rs| - 1], product) + PutBy(rs[..|rs| - 1], rs[|rs| - 1], product)
  }

  lemma KnownSnoc(rs: seq<Request>, product: ProductId)
    requires rs != []
    ensures Known(rs, product) <==> Known(rs[..|rs| - 1], product) || Creates(rs[|rs| - 1], product)
  {
    var front := rs[..|rs| - 1];
    assert forall i :: 0 <= i < |front| ==> front[i] == rs[i];
    if i :| 0 <= i < |rs| && Creates(rs[i], product) {
      assert i == |rs| - 1 || Creates(front[i], product);
    }
    if i :| 0 <= i < |front| && Creates(front[i], product) {
      assert Creates(rs[i], product);
    }
  }

  lemma ServeKnows(t: Tables, r: Request, product: ProductId)
    ensures product in Serve(t, r).0.products <==> product in t.products || Creates(r, product)
  {
  }

  lemma ServePuts(rs: seq<Request>, t: Tables, r: Request, product: ProductId)
    requires forall p :: p in t.products <==> Known(rs, p)
    ensures Received(Serve(t, r).0.journal, product) == Received(t.journal, product) + PutBy(rs, r, product)
  {
    hide Received, Known;
    var j := Serve(t, r).0.journal;
    if j != t.journal {
      JournalSnoc(t.journal, j[|j| - 1]);
    }
  }

  lemma {:induction false} PutIsReceived(rs: seq<Request>)
    ensures forall p :: p in ServeAll(rs).products <==> Known(rs, p)
    ensures forall p :: Received(ServeAll(rs).journal, p) == StockPut(rs, p)
  {
    hide Serve, Received, Known, PutBy;
    if rs == [] {
      NothingKnown();
    } else {
      var front, r := rs[..|rs| - 1], rs[|rs| - 1];
      PutIsReceived(front);
      forall p
        ensures p in ServeAll(rs).products <==> Known(rs, p)
        ensures Received(ServeAll(rs).journal, p) == StockPut(rs, p)
      {
        KnownSnoc(rs, p);
        ServeKnows(ServeAll(front), r, p);
        ServePuts(front, ServeAll(front), r, p);
      }
    }
  }

  lemma NothingKnown()
    ensures forall p :: !Known([], p) && Received([], p) == 0
  {
  }

  /** After any interleaving of calls: each product's reserved count is the sum of
      its reservation rows and within its stock, no hold is ever lost or settled twice,
      and stock plus units consumed is what the requests have put in. */
  lemma LedgerIsSound(rs: seq<Request>)
    ensures var t := ServeAll(rs);
            && Sound(t)
            && forall p :: p in t.products ==> t.products[p].stock + Sold(t.journal, p) == StockPut(rs, p)
  {
    hide ServeAll, Sold, Received, StockPut, Known;
    StaysSound(rs);
    PutIsReceived(rs);
    var t := ServeAll(rs);
    forall p | p in t.products
      ensures t.products[p].stock + Sold(t.journal, p) == StockPut(rs, p)
    {
      assert Balanced(t, p);
    }
  }

  lemma {:induction false} StaysSound(rs: seq<Request>)
    ensures Sound(ServeAll(rs))
  {
    hide Serve;
    if rs != [] {
      StaysSound(rs[..|rs| - 1]);
      ServeStaysSound(ServeAll(rs[..|rs| - 1]), rs[|rs| - 1]);
    } else {
      NothingIsSound();
    }
  }

  lemma NothingIsSound()
    ensures Sound(Tables(map[], map[], []))
  {
  }

  /** The price the product was created with. */
  function PriceSet(rs: seq<Request>, product: ProductId): int {
    if rs == [] then 0
    else if Known(rs[..|rs| - 1], product) then PriceSet(rs[..|rs| - 1], product)
    else if Creates(rs[|rs| - 1], product) then rs[|rs| - 1].price
    else 0
  }

  lemma {:induction false} PricesAreAsSet(rs: seq<Request>)
    ensures forall p :: p in ServeAll(rs).products ==> ServeAll(rs).products[p].price == PriceSet(rs, p)
  {
    hide Known;
    if rs != [] {
      var front, r := rs[..|rs| - 1], rs[|rs| - 1];
      PricesAreAsSet(front);
      PutIsReceived(front);
      ServeKeepsPrices(ServeAll(front), r);
    }
  }

  lemma ServeKeepsPrices(t: Tables, r: Request)
    ensures var t' := Serve(t, r).0;
            forall p :: p in t'.products ==>
              if p in t.products then t'.products[p].price == t.products[p].price
              else Creates(r, p) && t'.products[p].price == r.price
  {
  }

  /** What is left of a product for new holds, from the requests and the rows. */
  ghost function LeftOver(rs: seq<Request>, product: ProductId): int {
    StockPut(rs, product) - Sold(ServeAll(rs).journal, product) - RowsHeld(ServeAll(rs).rows, product)
  }

  /** After any calls, a hold is answered: Invalid exactly for units that are not
      positive, else NotFound exactly for a product never created, else Done without
      effect if the order holds that product already, else Done exactly if that many
      units are left, else Insufficient. Only a new hold changes anything. */
  lemma HoldIsGrantedIff(rs: seq<Request>, k: Key, units: int)
    ensures var t := ServeAll(rs);
            var (t', outcome) := Reserve(t, k, units);
            && outcome == (if units <= 0 then Invalid
                           else if !Known(rs, k.product) then NotFound
                           else if k in t.rows || units <= LeftOver(rs, k.product) then Done
                           else Insufficient)
            && (outcome.Done? && k !in t.rows ==> t'.rows == t.rows[k := units])
            && (!outcome.Done? || k in t.rows ==> t' == t)
  {
    hide ServeAll, Sold, StockPut, Known, RowsHeld;
    LedgerIsSound(rs);
    PutIsReceived(rs);
    var t := ServeAll(rs);
    if k.product in t.products {
      assert Balanced(t, k.product);
    }
  }

  /** After any calls, releasing or committing is answered Done exactly for a product
      that was created, settles exactly the units held, and is void if none are. */
  lemma SettlingIsExact(rs: seq<Request>, k: Key)
    ensures var t := ServeAll(rs);
            var released, committed := Release(t, k), Commit(t, k);
            && released.1 == committed.1 == (if Known(rs, k.product) then Done else NotFound)
            && (k !in t.rows ==> released.0 == t && committed.0 == t)
            && (k in t.rows ==>
                  && k.product in t.products
                  && released.0.rows == committed.0.rows == t.rows - {k}
                  && var p, units := t.products[k.product], t.rows[k];
                     && released.0.products == t.products[k.product := Product(p.price, p.stock, p.reserved - units)]
                     && committed.0.products ==
                          t.products[k.product := Product(p.price, p.stock - units, p.reserved - units)])
  {
    hide ServeAll, Sold, StockPut, Known, RowsHeld;
    LedgerIsSound(rs);
    PutIsReceived(rs);
    if k in ServeAll(rs).rows {
      NeverClamps(ServeAll(rs), k);
    }
  }

  /** After any calls, adding stock is answered Invalid exactly for a delta that is not
      positive, else NotFound exactly for a product never created, else adds the delta. */
  lemma AddingIsExact(rs: seq<Request>, product: ProductId, delta: int)
    ensures var t := ServeAll(rs);
            var (t', outcome) := AddStock(t, product, delta);
            && outcome == (if delta <= 0 then Invalid else if !Known(rs, product) then NotFound else Done)
            && (!outcome.Done? ==> t' == t)
            && (outcome.Done? ==>
                  && product in t.products
                  && var p := t.products[product];
                     && t'.rows == t.rows
                     && t'.products == t.products[product := Product(p.price, p.stock + delta, p.reserved)])
  {
    hide ServeAll, Known;
    PutIsReceived(rs);
  }

  /** Releasing or committing is idempotent: once a hold is settled either way,
      settling it again either way changes nothing. */
  lemma SettlingTwiceIsOnce(t: Tables, k: Key)
    ensures var released, committed := Release(t, k).0, Commit(t, k).0;
            && Release(released, k).0 == released && Commit(released, k).0 == released
            && Release(committed, k).0 == committed && Commit(committed, k).0 == committed
  {
  }

  /** A hold given back leaves the product as if it had never been placed. */
  lemma ReleaseUndoesReserve(t: Tables, k: Key, units: int)
    requires Sound(t) && k !in t.rows
    ensures var held := Reserve(t, k, units).0;
            var back := Release(held, k).0;
            back.products == t.products && back.rows == t.rows
  {
    if k.product in t.products {
      assert Balanced(t, k.product);
      var held := Reserve(t, k, units).0;
      if held != t {
        assert held.rows - {k} == t.rows;
        assert held.products[k.product := t.products[k.product]] == t.products;
      }
    }
  }
}
