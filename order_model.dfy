/** The order transaction manager (server/models/orderModel.js): the `customers`,
    `orders` and `order_items` tables, the read-only `users` table the report joins,
    and the operations `create`, `updateOrder`, `deleteOrder` and `getReport`.
    Each operation is one atomic step; its effect is first given as a function on
    the tables, and the `OrderStore` class performs it in place. Money is integer cents. */
module OrderModel {
  import opened Common
  import opened Rows
  import opened ProductModel

  datatype User = User(id: nat, username: string)
  datatype Customer = Customer(id: nat, name: string)
  datatype Order = Order(id: nat, userId: int, customerId: int, totalPrice: int, orderDate: int)
  datatype OrderItem = OrderItem(id: nat, orderId: int, productId: int, quantity: int, price: int)

  function UserId(u: User): int { u.id }
  function CustomerId(c: Customer): int { c.id }
  function OrderId(o: Order): int { o.id }
  function ItemId(i: OrderItem): int { i.id }
  /** The `order_id` column of `order_items`, by which `deleteOrder` removes rows. */
  function ItemOrderId(i: OrderItem): int { i.orderId }

  /** The tables the order model reads and writes, with their AUTO_INCREMENT counters. */
  datatype Tables = Tables(
    users: seq<User>,
    customers: seq<Customer>,
    orders: seq<Order>,
    items: seq<OrderItem>,
    nextCustomerId: nat,
    nextOrderId: nat,
    nextItemId: nat)

  /** Primary keys in key order, and every item row belongs to an existing order. */
  ghost predicate TablesValid(t: Tables)
  {
    && KeysAscending(t.users, UserId)
    && KeysIncreasing(t.customers, CustomerId, t.nextCustomerId)
    && KeysIncreasing(t.orders, OrderId, t.nextOrderId)
    && KeysIncreasing(t.items, ItemId, t.nextItemId)
    && (forall k :: 0 <= k < |t.items| ==> FindKey(t.orders, OrderId, t.items[k].orderId).Some?)
  }

  // ---------------------------------------------------------------------------
  // create

  /** One element of the request's `items`: the client's `{id, name, price, quantity}`. */
  datatype Line = Line(id: int, name: string, price: int, quantity: int)

  /** The `[item.id, item.quantity, productPrice]` triple built for each line. */
  datatype PricedLine = PricedLine(productId: int, quantity: int, price: int)

  /** The errors `create` throws: "Customer name is required",
      "At least one item is required", "Product with ID <id> not found". */
  datatype OrderError = CustomerNameRequired | ItemsRequired | ProductNotFound(productId: int)

  /** `SELECT id FROM customers WHERE name = ?`, first row. */
  function FindCustomerByName(customers: seq<Customer>, name: string): (r: Option<Customer>)
    ensures r.None? <==> forall k :: 0 <= k < |customers| ==> customers[k].name != name
    ensures r.Some? ==> exists k :: 0 <= k < |customers| && customers[k] == r.value && r.value.name == name
                                    && forall j :: 0 <= j < k ==> customers[j].name != name
  {
    if customers == [] then None
    else if customers[0].name == name then Some(customers[0])
    else
      var r := FindCustomerByName(customers[1..], name);
      assert forall k :: 1 <= k < |customers| ==> customers[k] == customers[1..][k - 1];
      if r.Some? then
        var k :| 0 <= k < |customers[1..]| && customers[1..][k] == r.value && r.value.name == name
                 && forall j :: 0 <= j < k ==> customers[1..][j].name != name;
        assert customers[k + 1] == r.value;
        r
      else r
  }

  /** The customer an order is booked to, and the customers table and counter after the lookup. */
  datatype Resolved = Resolved(customerId: nat, customers: seq<Customer>, nextCustomerId: nat)

  /** Reuse the first customer with exactly that name, or insert one under the next id. */
  function ResolveCustomer(customers: seq<Customer>, nextCustomerId: nat, name: string): Resolved
  {
    match FindCustomerByName(customers, name)
    case Some(c) => Resolved(c.id, customers, nextCustomerId)
    case None => Resolved(nextCustomerId, customers + [Customer(nextCustomerId, name)], nextCustomerId + 1)
  }

  /** Whether line `k` is the first whose product is not in the catalog. */
  ghost predicate FirstMissing(products: seq<Product>, lines: seq<Line>, k: int)
  {
    && 0 <= k < |lines|
    && FindProduct(products, lines[k].id).None?
    && forall j :: 0 <= j < k ==> FindProduct(products, lines[j].id).Some?
  }

  /** Prices every line from the catalog, in order; the first unknown product fails the whole call.
      Only `id` and `quantity` of a line are read. */
  function PriceLines(products: seq<Product>, lines: seq<Line>): (r: Result<seq<PricedLine>, OrderError>)
    ensures r.Ok? <==> forall k :: 0 <= k < |lines| ==> FindProduct(products, lines[k].id).Some?
    ensures r.Ok? ==> |r.value| == |lines|
    ensures r.Ok? ==> forall k :: 0 <= k < |lines| ==>
      r.value[k] == PricedLine(lines[k].id, lines[k].quantity, FindProduct(products, lines[k].id).value.price)
  {
    if lines == [] then Ok([])
    else
      var init := lines[..|lines| - 1];
      var last := lines[|lines| - 1];
      assert forall k :: 0 <= k < |init| ==> init[k] == lines[k];
      match PriceLines(products, init)
      case Err(e) => Err(e)
      case Ok(vs) =>
        match FindProduct(products, last.id)
        case None => Err(ProductNotFound(last.id))
        case Some(p) => Ok(vs + [PricedLine(last.id, last.quantity, p.price)])
  }

  /** `totalPrice += productPrice * item.quantity`, over the priced lines in order. */
  function LinesTotal(vs: seq<PricedLine>): int
  {
    if vs == [] then 0 else LinesTotal(vs[..|vs| - 1]) + vs[|vs| - 1].price * vs[|vs| - 1].quantity
  }

  /** The reference total: the sum over the request's lines of catalog price times quantity. */
  function CatalogTotal(products: seq<Product>, lines: seq<Line>): int
    requires forall k :: 0 <= k < |lines| ==> FindProduct(products, lines[k].id).Some?
  {
    if lines == [] then 0
    else FindProduct(products, lines[0].id).value.price * lines[0].quantity + CatalogTotal(products, lines[1..])
  }

  /** The `order_items` rows of the bulk insert, numbered from the item counter. */
  function ItemRows(orderId: nat, firstId: nat, vs: seq<PricedLine>): seq<OrderItem>
  {
    seq(|vs|, k requires 0 <= k < |vs| => OrderItem(firstId + k, orderId, vs[k].productId, vs[k].quantity, vs[k].price))
  }

  /** What a call of `create` returns and the tables it leaves behind. */
  datatype Created = Created(result: Result<nat, OrderError>, tables: Tables)

  /** `create(userId, customerName, items)` as one transaction: validate, resolve the customer,
      price the lines from the catalog, insert the order and its items; on any error
      the tables are as before. `now` is the value of `NOW()`. */
  function CreateOutcome(t: Tables, products: seq<Product>, userId: int, customerName: string,
                         lines: seq<Line>, now: int): (r: Created)
    ensures r.result.Err? ==> r.tables == t
    ensures customerName == "" ==> r.result == Err(CustomerNameRequired)
    ensures customerName != "" && lines == [] ==> r.result == Err(ItemsRequired)
    ensures r.result.Ok? <==>
      customerName != "" && lines != [] && forall k :: 0 <= k < |lines| ==> FindProduct(products, lines[k].id).Some?
    ensures r.result.Ok? ==> r.result.value == t.nextOrderId
    ensures r.tables.users == t.users
  {
    if customerName == "" then Created(Err(CustomerNameRequired), t)
    else if lines == [] then Created(Err(ItemsRequired), t)
    else
      var c := ResolveCustomer(t.customers, t.nextCustomerId, customerName);
      match PriceLines(products, lines)
      case Err(e) => Created(Err(e), t)
      case Ok(vs) =>
        var orderId := t.nextOrderId;
        var order := Order(orderId, userId, c.customerId, LinesTotal(vs), now);
        Created(Ok(orderId), t.(customers := c.customers, nextCustomerId := c.nextCustomerId,
                                orders := t.orders + [order], nextOrderId := orderId + 1,
                                items := t.items + ItemRows(orderId, t.nextItemId, vs),
                                nextItemId := t.nextItemId + |vs|))
  }

  /** An unknown product fails `create` with that product's id, the first one in line order,
      and rolls back everything, including a customer inserted earlier in the same call. */
  lemma {:induction false} PriceLinesFirstMissing(products: seq<Product>, lines: seq<Line>, k: int)
    requires FirstMissing(products, lines, k)
    ensures PriceLines(products, lines) == Err(ProductNotFound(lines[k].id))
  {
    var init := lines[..|lines| - 1];
    assert forall j :: 0 <= j < |init| ==> init[j] == lines[j];
    if k < |lines| - 1 {
      assert FirstMissing(products, init, k);
      PriceLinesFirstMissing(products, init, k);
    }
  }

  lemma CreateFailsOnFirstMissing(t: Tables, products: seq<Product>, userId: int, customerName: string,
                                  lines: seq<Line>, now: int, k: int)
    requires customerName != "" && FirstMissing(products, lines, k)
    ensures CreateOutcome(t, products, userId, customerName, lines, now)
              == Created(Err(ProductNotFound(lines[k].id)), t)
  {
    PriceLinesFirstMissing(products, lines, k);
  }

  /** The stored `total_price` is the catalog price times the quantity, summed over the lines. */
  lemma {:induction false} LinesTotalIsCatalogTotal(products: seq<Product>, lines: seq<Line>)
    requires forall k :: 0 <= k < |lines| ==> FindProduct(products, lines[k].id).Some?
    ensures LinesTotal(PriceLines(products, lines).value) == CatalogTotal(products, lines)
  {
    if lines != [] {
      var init, last := lines[..|lines| - 1], lines[|lines| - 1];
      assert forall j :: 0 <= j < |init| ==> init[j] == lines[j];
      LinesTotalIsCatalogTotal(products, init);
      var x := PricedLine(last.id, last.quantity, FindProduct(products, last.id).value.price);
      assert PriceLines(products, lines).value == PriceLines(products, init).value + [x];
      LinesTotalSnoc(PriceLines(products, init).value, x);
      CatalogTotalLast(products, lines);
    }
  }

  /** The last line's catalog amount is the difference between the totals with and without it. */
  lemma CatalogTotalLast(products: seq<Product>, lines: seq<Line>)
    requires lines != []
    requires forall k :: 0 <= k < |lines| ==> FindProduct(products, lines[k].id).Some?
    ensures var last := lines[|lines| - 1];
      CatalogTotal(products, lines)
      == CatalogTotal(products, lines[..|lines| - 1]) + FindProduct(products, last.id).value.price * last.quantity
  {
    var init, last := lines[..|lines| - 1], lines[|lines| - 1];
    assert lines == init + [last];
    CatalogTotalSnoc(products, init, last);
  }

  /** Pricing one more line appends its priced line. */
  lemma PriceLinesSnoc(products: seq<Product>, lines: seq<Line>, x: Line)
    requires PriceLines(products, lines).Ok? && FindProduct(products, x.id).Some?
    ensures PriceLines(products, lines + [x])
            == Ok(PriceLines(products, lines).value + [PricedLine(x.id, x.quantity, FindProduct(products, x.id).value.price)])
  {
    assert (lines + [x])[..|lines|] == lines;
  }

  /** One more priced line adds its price times its quantity to the total. */
  lemma LinesTotalSnoc(vs: seq<PricedLine>, x: PricedLine)
    ensures LinesTotal(vs + [x]) == LinesTotal(vs) + x.price * x.quantity
  {
    assert (vs + [x])[..|vs|] == vs;
  }

  lemma {:induction false} CatalogTotalSnoc(products: seq<Product>, lines: seq<Line>, x: Line)
    requires forall k :: 0 <= k < |lines| ==> FindProduct(products, lines[k].id).Some?
    requires FindProduct(products, x.id).Some?
    ensures CatalogTotal(products, lines + [x])
            == CatalogTotal(products, lines) + FindProduct(products, x.id).value.price * x.quantity
  {
    if lines != [] {
      assert (lines + [x])[1..] == lines[1..] + [x];
      CatalogTotalSnoc(products, lines[1..], x);
    } else {
      assert [x][1..] == [];
    }
  }

  /** The client's `price` and `name` never influence `create`: two requests whose lines agree
      on product ids and quantities have the same outcome. */
  lemma {:induction false} CreateIgnoresClientPriceAndName(t: Tables, products: seq<Product>, userId: int,
                                                           customerName: string, lines: seq<Line>,
                                                           tampered: seq<Line>, now: int)
    requires |tampered| == |lines|
    requires forall k :: 0 <= k < |lines| ==> tampered[k].id == lines[k].id && tampered[k].quantity == lines[k].quantity
    ensures CreateOutcome(t, products, userId, customerName, tampered, now)
            == CreateOutcome(t, products, userId, customerName, lines, now)
  {
    PriceLinesIgnoresClientFields(products, lines, tampered);
  }

  lemma {:induction false} PriceLinesIgnoresClientFields(products: seq<Product>, lines: seq<Line>, tampered: seq<Line>)
    requires |tampered| == |lines|
    requires forall k :: 0 <= k < |lines| ==> tampered[k].id == lines[k].id && tampered[k].quantity == lines[k].quantity
    ensures PriceLines(products, tampered) == PriceLines(products, lines)
  {
    if lines != [] {
      var n := |lines|;
      PriceLinesIgnoresClientFields(products, lines[..n - 1], tampered[..n - 1]);
    }
  }

  /** A successful `create` reuses the first customer with exactly that name, or else inserts
      exactly one customer with that name under the next id. */
  lemma CreateResolvesCustomer(t: Tables, products: seq<Product>, userId: int, customerName: string,
                               lines: seq<Line>, now: int)
    requires CreateOutcome(t, products, userId, customerName, lines, now).result.Ok?
    ensures var t' := CreateOutcome(t, products, userId, customerName, lines, now).tables;
      && |t'.orders| == |t.orders| + 1
      && match FindCustomerByName(t.customers, customerName)
         case Some(c) =>
           && t'.customers == t.customers && t'.nextCustomerId == t.nextCustomerId
           && t'.orders[|t.orders|].customerId == c.id
         case None =>
           && t'.customers == t.customers + [Customer(t.nextCustomerId, customerName)]
           && t'.nextCustomerId == t.nextCustomerId + 1
           && t'.orders[|t.orders|].customerId == t.nextCustomerId
  {
  }

  /** A successful `create` appends exactly one order and one item row per line, in line order,
      each carrying the new order id, the product id, the quantity as given and the catalog price;
      the order's total is the catalog total, and the returned id is the new order's id. */
  lemma CreateAppendsRows(t: Tables, products: seq<Product>, userId: int, customerName: string,
                          lines: seq<Line>, now: int)
    requires CreateOutcome(t, products, userId, customerName, lines, now).result.Ok?
    ensures var r := CreateOutcome(t, products, userId, customerName, lines, now);
      var t' := r.tables;
      var orderId := r.result.value;
      && (forall k :: 0 <= k < |lines| ==> FindProduct(products, lines[k].id).Some?)
      && t'.orders == t.orders + [Order(orderId, userId, t'.orders[|t.orders|].customerId,
                                         CatalogTotal(products, lines), now)]
      && |t'.items| == |t.items| + |lines|
      && t'.items[..|t.items|] == t.items
      && (forall k :: 0 <= k < |lines| ==>
            t'.items[|t.items| + k]
              == OrderItem(t.nextItemId + k, orderId, lines[k].id, lines[k].quantity,
                           FindProduct(products, lines[k].id).value.price))
  {
    LinesTotalIsCatalogTotal(products, lines);
  }

  /** `create` keeps the tables well formed: fresh keys, and the new items point at the new order. */
  lemma CreateKeepsValid(t: Tables, products: seq<Product>, userId: int, customerName: string,
                         lines: seq<Line>, now: int)
    requires TablesValid(t)
    ensures TablesValid(CreateOutcome(t, products, userId, customerName, lines, now).tables)
  {
    var r := CreateOutcome(t, products, userId, customerName, lines, now);
    if r.result.Ok? {
      var t' := r.tables;
      var orderId := t.nextOrderId;
      var vs := PriceLines(products, lines).value;
      var o := t'.orders[|t.orders|];
      assert t'.orders == t.orders + [o];
      AppendIncreasing(t.orders, OrderId, t.nextOrderId, o);
      if FindCustomerByName(t.customers, customerName).None? {
        AppendIncreasing(t.customers, CustomerId, t.nextCustomerId, Customer(t.nextCustomerId, customerName));
      }
      ItemRowsIncreasing(t.items, t.nextItemId, orderId, vs);
      forall k | 0 <= k < |t'.items|
        ensures FindKey(t'.orders, OrderId, t'.items[k].orderId).Some?
      {
        FindKeyAppend(t.orders, OrderId, o, t'.items[k].orderId);
        if k < |t.items| {
          assert t'.items[k] == t.items[k];
        }
      }
    }
  }

  lemma ItemRowsIncreasing(items: seq<OrderItem>, nextItemId: nat, orderId: nat, vs: seq<PricedLine>)
    requires KeysIncreasing(items, ItemId, nextItemId)
    ensures KeysIncreasing(items + ItemRows(orderId, nextItemId, vs), ItemId, nextItemId + |vs|)
  {
    var u := items + ItemRows(orderId, nextItemId, vs);
    forall k | 0 <= k < |u| ensures 0 < u[k].id < nextItemId + |vs| {
      if k < |items| { assert u[k] == items[k]; }
    }
    forall j, k | 0 <= j < k < |u| ensures u[j].id < u[k].id {
      if k < |items| {
        assert u[j] == items[j] && u[k] == items[k];
      } else if j < |items| {
        assert u[j] == items[j];
      }
    }
  }

  // ---------------------------------------------------------------------------
  // getReport

  /** One row of the report: `order_id, order_date, user_id, user_name, customer_name,
      total_items, total_revenue`. The joined names are NULL when the join finds no row. */
  datatype ReportRow = ReportRow(orderId: nat, orderDate: int, userId: int, userName: Option<string>,
                                 customerName: Option<string>, totalItems: nat, totalRevenue: int)

  function RowOrderId(r: ReportRow): int { r.orderId }

  /** `COUNT(oi.id)` for one order: the number of item rows, not the sum of their quantities. */
  function ItemCount(items: seq<OrderItem>, orderId: int): nat
  {
    if items == [] then 0
    else (if items[0].orderId == orderId then 1 else 0) + ItemCount(items[1..], orderId)
  }

  /** `SUM(COALESCE(oi.price * oi.quantity, 0))` for one order. */
  function Revenue(items: seq<OrderItem>, orderId: int): int
  {
    if items == [] then 0
    else (if items[0].orderId == orderId then items[0].price * items[0].quantity else 0) + Revenue(items[1..], orderId)
  }

  function UserName(users: seq<User>, id: int): Option<string>
  {
    match FindKey(users, UserId, id)
    case Some(u) => Some(u.username)
    case None => None
  }

  function CustomerName(customers: seq<Customer>, id: int): Option<string>
  {
    match FindKey(customers, CustomerId, id)
    case Some(c) => Some(c.name)
    case None => None
  }

  /** The report row of one order, from the outer joins and the grouping by order. */
  function RowOf(t: Tables, o: Order): ReportRow
  {
    ReportRow(o.id, o.orderDate, o.userId, UserName(t.users, o.userId), CustomerName(t.customers, o.customerId),
              ItemCount(t.items, o.id), Revenue(t.items, o.id))
  }

  function ReportRows(t: Tables, orders: seq<Order>): (r: seq<ReportRow>)
    ensures |r| == |orders|
  {
    if orders == [] then [] else [RowOf(t, orders[0])] + ReportRows(t, orders[1..])
  }

  /** `getReport`: one row per order, in the orders table's order. */
  function Report(t: Tables): (r: seq<ReportRow>)
    ensures |r| == |t.orders|
  {
    ReportRows(t, t.orders)
  }

  /** The report has exactly one row per order, and row k describes order k. */
  lemma {:induction false} ReportRowsAt(t: Tables, orders: seq<Order>, k: nat)
    requires k < |orders|
    ensures ReportRows(t, orders)[k] == RowOf(t, orders[k])
  {
    if k > 0 {
      ReportRowsAt(t, orders[1..], k - 1);
    }
  }

  /** An order without item rows is still reported, with zero items and zero revenue. */
  lemma {:induction false} NoItemsNoRevenue(items: seq<OrderItem>, orderId: int)
    requires forall k :: 0 <= k < |items| ==> items[k].orderId != orderId
    ensures ItemCount(items, orderId) == 0 && Revenue(items, orderId) == 0
  {
    if items != [] {
      NoItemsNoRevenue(items[1..], orderId);
    }
  }

  lemma {:induction false} CountAndRevenueConcat(a: seq<OrderItem>, b: seq<OrderItem>, orderId: int)
    ensures ItemCount(a + b, orderId) == ItemCount(a, orderId) + ItemCount(b, orderId)
    ensures Revenue(a + b, orderId) == Revenue(a, orderId) + Revenue(b, orderId)
  {
    if a == [] {
      assert a + b == b;
    } else {
      assert (a + b)[0] == a[0] && (a + b)[1..] == a[1..] + b;
      CountAndRevenueConcat(a[1..], b, orderId);
    }
  }

  /** The item rows of one order count once each and sum to the priced lines' total. */
  lemma {:induction false} ItemRowsCountAndRevenue(orderId: nat, firstId: nat, vs: seq<PricedLine>, id: int)
    ensures ItemCount(ItemRows(orderId, firstId, vs), id) == if id == orderId then |vs| else 0
    ensures Revenue(ItemRows(orderId, firstId, vs), id) == if id == orderId then LinesTotal(vs) else 0
  {
    if vs != [] {
      var n := |vs|;
      var init := vs[..n - 1];
      ItemRowsCountAndRevenue(orderId, firstId, init, id);
      var rows := ItemRows(orderId, firstId, vs);
      var last := OrderItem(firstId + n - 1, orderId, vs[n - 1].productId, vs[n - 1].quantity, vs[n - 1].price);
      assert rows == ItemRows(orderId, firstId, init) + [last];
      CountAndRevenueConcat(ItemRows(orderId, firstId, init), [last], id);
      assert [last][1..] == [];
    }
  }

  /** After a successful `create` the report gains one row for the new order, whose item count
      is the number of lines and whose revenue equals the stored total and the catalog total;
      the item count and revenue of every earlier order are unchanged. */
  lemma CreateReport(t: Tables, products: seq<Product>, userId: int, customerName: string,
                     lines: seq<Line>, now: int)
    requires TablesValid(t)
    requires CreateOutcome(t, products, userId, customerName, lines, now).result.Ok?
    ensures var t' := CreateOutcome(t, products, userId, customerName, lines, now).tables;
      var rows := Report(t');
      && |rows| == |t.orders| + 1
      && rows[|t.orders|].orderId == t.nextOrderId
      && rows[|t.orders|].totalItems == |lines|
      && rows[|t.orders|].totalRevenue == t'.orders[|t.orders|].totalPrice == CatalogTotal(products, lines)
      && forall k :: 0 <= k < |t.orders| ==>
           rows[k].totalItems == Report(t)[k].totalItems && rows[k].totalRevenue == Report(t)[k].totalRevenue
  {
    var t' := CreateOutcome(t, products, userId, customerName, lines, now).tables;
    var orderId := t.nextOrderId;
    var vs := PriceLines(products, lines).value;
    var added := ItemRows(orderId, t.nextItemId, vs);
    assert t'.items == t.items + added;
    LinesTotalIsCatalogTotal(products, lines);
    ItemRowsCountAndRevenue(orderId, t.nextItemId, vs, orderId);
    // the new order's id is fresh, so no earlier item row belongs to it
    forall k | 0 <= k < |t.items| ensures t.items[k].orderId != orderId {
      var o := FindKey(t.orders, OrderId, t.items[k].orderId).value;
    }
    NoItemsNoRevenue(t.items, orderId);
    CountAndRevenueConcat(t.items, added, orderId);
    ReportRowsAt(t', t'.orders, |t.orders|);
    forall k | 0 <= k < |t.orders|
      ensures Report(t')[k].totalItems == Report(t)[k].totalItems
      ensures Report(t')[k].totalRevenue == Report(t)[k].totalRevenue
    {
      ReportRowsAt(t', t'.orders, k);
      ReportRowsAt(t, t.orders, k);
      assert t'.orders[k] == t.orders[k];
      CountAndRevenueConcat(t.items, added, t.orders[k].id);
      ItemRowsCountAndRevenue(orderId, t.nextItemId, vs, t.orders[k].id);
    }
  }

  // ---------------------------------------------------------------------------
  // deleteOrder

  /** `deleteOrder(id)`: `DELETE FROM order_items WHERE order_id = ?`, then
      `DELETE FROM orders WHERE id = ?`, in one transaction. Afterwards no order row has that
      id and no item row refers to it; users, customers and counters are not touched. */
  function DeleteOrderTables(t: Tables, orderId: int): (r: Tables)
    ensures forall k :: 0 <= k < |r.orders| ==> r.orders[k].id != orderId
    ensures forall k :: 0 <= k < |r.items| ==> r.items[k].orderId != orderId
    ensures |r.orders| <= |t.orders| && |r.items| <= |t.items|
    ensures r.users == t.users && r.customers == t.customers
    ensures (r.nextCustomerId, r.nextOrderId, r.nextItemId) == (t.nextCustomerId, t.nextOrderId, t.nextItemId)
  {
    var items := RemoveKey(t.items, ItemOrderId, orderId);
    var orders := RemoveKey(t.orders, OrderId, orderId);
    t.(items := items, orders := orders)
  }

  /** `deleteOrder` leaves no item of that order and no order row with that id, keeps every
      other order and item in order, touches neither customers nor users, and keeps the
      tables well formed. */
  lemma DeleteOrderEffect(t: Tables, orderId: int)
    requires TablesValid(t)
    ensures var t' := DeleteOrderTables(t, orderId);
      && TablesValid(t')
      && FindKey(t'.orders, OrderId, orderId).None?
      && (forall k :: 0 <= k < |t'.items| ==> t'.items[k].orderId != orderId)
      && (forall x :: x in t'.items <==> x in t.items && x.orderId != orderId)
      && (forall o :: o in t'.orders <==> o in t.orders && o.id != orderId)
      && t'.customers == t.customers && t'.users == t.users
  {
    var t' := DeleteOrderTables(t, orderId);
    RemoveKeepsIncreasing(t.items, ItemId, t.nextItemId, ItemOrderId, orderId);
    RemoveKeepsIncreasing(t.orders, OrderId, t.nextOrderId, OrderId, orderId);
    FindKeyAfterRemove(t.orders, OrderId, orderId, orderId);
    forall x ensures x in t'.items <==> x in t.items && x.orderId != orderId {
      RemoveKeyMember(t.items, ItemOrderId, orderId, x);
    }
    forall o ensures o in t'.orders <==> o in t.orders && o.id != orderId {
      RemoveKeyMember(t.orders, OrderId, orderId, o);
    }
    forall k | 0 <= k < |t'.items|
      ensures t'.items[k].orderId != orderId
      ensures FindKey(t'.orders, OrderId, t'.items[k].orderId).Some?
    {
      var x := t'.items[k];
      RemoveKeyMember(t.items, ItemOrderId, orderId, x);
      var j :| 0 <= j < |t.items| && t.items[j] == x;
      FindKeyAfterRemove(t.orders, OrderId, orderId, x.orderId);
    }
  }

  /** Deleting an order that does not exist is a silent no-op. */
  lemma DeleteAbsentOrderIsNoop(t: Tables, orderId: int)
    requires TablesValid(t) && FindKey(t.orders, OrderId, orderId).None?
    ensures DeleteOrderTables(t, orderId) == t
  {
    forall k | 0 <= k < |t.items| ensures t.items[k].orderId != orderId {
      var o := FindKey(t.orders, OrderId, t.items[k].orderId).value;
    }
    RemoveKeyAbsent(t.items, ItemOrderId, orderId);
    RemoveKeyNotFound(t.orders, OrderId, orderId);
  }

  lemma {:induction false} RemoveItemsKeepsOthers(items: seq<OrderItem>, orderId: int, other: int)
    requires other != orderId
    ensures ItemCount(RemoveKey(items, ItemOrderId, orderId), other) == ItemCount(items, other)
    ensures Revenue(RemoveKey(items, ItemOrderId, orderId), other) == Revenue(items, other)
  {
    if items != [] {
      RemoveItemsKeepsOthers(items[1..], orderId, other);
    }
  }

  lemma {:induction false} ReportRowsAfterDelete(t: Tables, orders: seq<Order>, orderId: int)
    ensures ReportRows(DeleteOrderTables(t, orderId), RemoveKey(orders, OrderId, orderId))
            == RemoveKey(ReportRows(t, orders), RowOrderId, orderId)
  {
    if orders != [] {
      ReportRowsAfterDelete(t, orders[1..], orderId);
      if orders[0].id != orderId {
        RemoveItemsKeepsOthers(t.items, orderId, orders[0].id);
      }
    }
  }

  /** After `deleteOrder(id)` the report is the old report without that order's row;
      every other row is unchanged. */
  lemma DeleteOrderReport(t: Tables, orderId: int)
    ensures Report(DeleteOrderTables(t, orderId)) == RemoveKey(Report(t), RowOrderId, orderId)
  {
    ReportRowsAfterDelete(t, t.orders, orderId);
  }

  // ---------------------------------------------------------------------------
  // updateOrder

  /** `UPDATE customers SET name = ? WHERE id = ?`. */
  function RenameCustomer(customers: seq<Customer>, customerId: int, name: string): (r: seq<Customer>)
    ensures |r| == |customers|
    ensures forall k :: 0 <= k < |r| ==> r[k].id == customers[k].id
  {
    if customers == [] then []
    else [if customers[0].id == customerId then customers[0].(name := name) else customers[0]]
         + RenameCustomer(customers[1..], customerId, name)
  }

  /** `UPDATE orders SET customer_id = ?, total_price = ?, order_date = ? WHERE id = ?`. */
  function SetOrderFields(orders: seq<Order>, orderId: int, customerId: int, totalPrice: int, orderDate: int)
    : (r: seq<Order>)
    ensures |r| == |orders|
    ensures forall k :: 0 <= k < |r| ==> r[k].id == orders[k].id
  {
    if orders == [] then []
    else [if orders[0].id == orderId then orders[0].(customerId := customerId, totalPrice := totalPrice, orderDate := orderDate)
          else orders[0]]
         + SetOrderFields(orders[1..], orderId, customerId, totalPrice, orderDate)
  }

  /** `updateOrder(orderId, customerId, customerName, totalPrice, orderDate)` in one transaction:
      no row appears or goes and no key changes; the users, the item rows and the counters are
      not touched. */
  function UpdateOrderTables(t: Tables, orderId: int, customerId: int, customerName: string,
                             totalPrice: int, orderDate: int): (r: Tables)
    ensures r.users == t.users && r.items == t.items
    ensures (r.nextCustomerId, r.nextOrderId, r.nextItemId) == (t.nextCustomerId, t.nextOrderId, t.nextItemId)
    ensures |r.customers| == |t.customers| && |r.orders| == |t.orders|
    ensures forall k :: 0 <= k < |r.customers| ==> r.customers[k].id == t.customers[k].id
    ensures forall k :: 0 <= k < |r.orders| ==> r.orders[k].id == t.orders[k].id
  {
    t.(customers := RenameCustomer(t.customers, customerId, customerName),
       orders := SetOrderFields(t.orders, orderId, customerId, totalPrice, orderDate))
  }

  lemma {:induction false} RenameCustomerAt(customers: seq<Customer>, customerId: int, name: string, k: nat)
    requires k < |customers|
    ensures |RenameCustomer(customers, customerId, name)| == |customers|
    ensures RenameCustomer(customers, customerId, name)[k]
            == if customers[k].id == customerId then customers[k].(name := name) else customers[k]
  {
    if k > 0 {
      RenameCustomerAt(customers[1..], customerId, name, k - 1);
    }
  }

  lemma {:induction false} SetOrderFieldsAt(orders: seq<Order>, orderId: int, customerId: int, totalPrice: int,
                                            orderDate: int, k: nat)
    requires k < |orders|
    ensures |SetOrderFields(orders, orderId, customerId, totalPrice, orderDate)| == |orders|
    ensures SetOrderFields(orders, orderId, customerId, totalPrice, orderDate)[k]
            == if orders[k].id == orderId
               then orders[k].(customerId := customerId, totalPrice := totalPrice, orderDate := orderDate)
               else orders[k]
  {
    if k > 0 {
      SetOrderFieldsAt(orders[1..], orderId, customerId, totalPrice, orderDate, k - 1);
    }
  }

  /** In a renamed customers table the lookup by id finds the same row, carrying the new name
      when it is the renamed customer. */
  lemma {:induction false} FindAfterRename(customers: seq<Customer>, customerId: int, name: string, id: int)
    ensures var found := FindKey(RenameCustomer(customers, customerId, name), CustomerId, id);
      && (found.Some? <==> FindKey(customers, CustomerId, id).Some?)
      && (found.Some? ==> found.value.name == if id == customerId then name else FindKey(customers, CustomerId, id).value.name)
  {
    if customers != [] {
      FindAfterRename(customers[1..], customerId, name, id);
    }
  }

  /** `updateOrder` keeps the tables well formed: no key changes and no row appears or goes. */
  lemma UpdateOrderKeepsValid(t: Tables, orderId: int, customerId: int, customerName: string,
                              totalPrice: int, orderDate: int)
    requires TablesValid(t)
    ensures TablesValid(UpdateOrderTables(t, orderId, customerId, customerName, totalPrice, orderDate))
  {
    var t' := UpdateOrderTables(t, orderId, customerId, customerName, totalPrice, orderDate);
    forall k | 0 <= k < |t.items| ensures FindKey(t'.orders, OrderId, t.items[k].orderId).Some? {
      var o := FindKey(t.orders, OrderId, t.items[k].orderId).value;
      var j :| 0 <= j < |t.orders| && t.orders[j] == o;
      assert t'.orders[j].id == o.id;
    }
  }

  /** After `updateOrder` the report has the same orders with the same item counts and
      revenues (the items are untouched, whatever `totalPrice` now says); the updated order
      carries the new date; and when the customer exists, every order now booked to it
      shows the new name. */
  lemma UpdateOrderReport(t: Tables, orderId: int, customerId: int, customerName: string,
                          totalPrice: int, orderDate: int)
    ensures var t' := UpdateOrderTables(t, orderId, customerId, customerName, totalPrice, orderDate);
      && |Report(t')| == |Report(t)| == |t.orders|
      && forall k :: 0 <= k < |t.orders| ==>
           && Report(t')[k].orderId == Report(t)[k].orderId
           && Report(t')[k].totalItems == Report(t)[k].totalItems
           && Report(t')[k].totalRevenue == Report(t)[k].totalRevenue
           && (t.orders[k].id == orderId ==> Report(t')[k].orderDate == orderDate && t'.orders[k].totalPrice == totalPrice)
           && ((t'.orders[k].customerId == customerId && FindKey(t.customers, CustomerId, customerId).Some?)
                 ==> Report(t')[k].customerName == Some(customerName))
  {
    var t' := UpdateOrderTables(t, orderId, customerId, customerName, totalPrice, orderDate);
    forall k | 0 <= k < |t.orders|
      ensures Report(t')[k].orderId == Report(t)[k].orderId
      ensures Report(t')[k].totalItems == Report(t)[k].totalItems
      ensures Report(t')[k].totalRevenue == Report(t)[k].totalRevenue
      ensures t.orders[k].id == orderId ==> Report(t')[k].orderDate == orderDate && t'.orders[k].totalPrice == totalPrice
      ensures (t'.orders[k].customerId == customerId && FindKey(t.customers, CustomerId, customerId).Some?)
                ==> Report(t')[k].customerName == Some(customerName)
    {
      ReportRowsAt(t', t'.orders, k);
      ReportRowsAt(t, t.orders, k);
      SetOrderFieldsAt(t.orders, orderId, customerId, totalPrice, orderDate, k);
      FindAfterRename(t.customers, customerId, customerName, customerId);
    }
  }

  /** The customer step of `create`: `SELECT id FROM customers WHERE name = ?`, and the
      `INSERT INTO customers (name)` when nothing was found, on the given copy of the table. */
  method FindOrInsertCustomer(customers: seq<Customer>, nextCustomerId: nat, name: string)
    returns (customerId: nat, customers': seq<Customer>, nextCustomerId': nat)
    ensures Resolved(customerId, customers', nextCustomerId')
            == ResolveCustomer(customers, nextCustomerId, name)
  {
    var existing := FindCustomerByName(customers, name);
    if existing.Some? {
      customerId, customers', nextCustomerId' := existing.value.id, customers, nextCustomerId;
    } else {
      customerId := nextCustomerId;
      customers' := customers + [Customer(customerId, name)];
      nextCustomerId' := nextCustomerId + 1;
    }
  }

  /** The pricing loop of `create`: looks every line's product up in the catalog, in order,
      accumulates `price * quantity`, and stops at the first unknown product. */
  method PriceItems(products: seq<Product>, lines: seq<Line>) returns (r: Result<seq<PricedLine>, OrderError>, total: int)
    ensures r == PriceLines(products, lines)
    ensures r.Ok? ==> total == LinesTotal(r.value)
  {
    var priced: seq<PricedLine> := [];
    total := 0;
    var i := 0;
    while i < |lines|
      invariant 0 <= i <= |lines|
      invariant PriceLines(products, lines[..i]) == Ok(priced)
      invariant total == LinesTotal(priced)
    {
      var product := FindProduct(products, lines[i].id);
      if product.None? {
        assert FirstMissing(products, lines, i) by {
          forall j | 0 <= j < i ensures FindProduct(products, lines[j].id).Some? {
            assert lines[..i][j] == lines[j];
          }
        }
        PriceLinesFirstMissing(products, lines, i);
        return Err(ProductNotFound(lines[i].id)), total;
      }
      var line := PricedLine(lines[i].id, lines[i].quantity, product.value.price);
      assert lines[..i + 1] == lines[..i] + [lines[i]];
      PriceLinesSnoc(products, lines[..i], lines[i]);
      LinesTotalSnoc(priced, line);
      total := total + line.price * line.quantity;
      priced := priced + [line];
      i := i + 1;
    }
    assert lines[..i] == lines;
    r := Ok(priced);
  }

  // ---------------------------------------------------------------------------
  // The tables, updated in place

  /** The database seen by the order model. `catalog` is the products table, which the
      order model only reads. */
  class OrderStore {
    const catalog: ProductStore
    var users: seq<User>
    var customers: seq<Customer>
    var orders: seq<Order>
    var items: seq<OrderItem>
    var nextCustomerId: nat
    var nextOrderId: nat
    var nextItemId: nat

    function State(): Tables
      reads this
    {
      Tables(users, customers, orders, items, nextCustomerId, nextOrderId, nextItemId)
    }

    ghost predicate Valid()
      reads this
    {
      TablesValid(State())
    }

    /** Empty order tables beside a given catalog and users table. */
    constructor (catalog: ProductStore, users: seq<User>)
      requires KeysAscending(users, UserId)
      ensures Valid() && this.catalog == catalog
      ensures State() == Tables(users, [], [], [], 1, 1, 1)
    {
      this.catalog := catalog;
      this.users := users;
      customers, orders, items := [], [], [];
      nextCustomerId, nextOrderId, nextItemId := 1, 1, 1;
    }

    /** `Order.create`. The checks come first; then the transaction works on candidate
        copies of the tables, and only a call that reaches the commit assigns them. */
    method Create(userId: int, customerName: string, lines: seq<Line>, now: int) returns (r: Result<nat, OrderError>)
      requires Valid()
      modifies this
      ensures Valid()
      ensures unchanged(catalog)
      ensures r == CreateOutcome(old(State()), catalog.rows, userId, customerName, lines, now).result
      ensures State() == CreateOutcome(old(State()), catalog.rows, userId, customerName, lines, now).tables
      ensures r.Err? ==> State() == old(State())
    {
      ghost var t := State();
      if customerName == "" {
        assert State() == t;
        return Err(CustomerNameRequired);
      }
      if |lines| == 0 {
        assert State() == t;
        return Err(ItemsRequired);
      }
      // BEGIN: resolve the customer on candidate copies of the customers table and its counter
      var customerId, candidateCustomers, candidateNextCustomerId := FindOrInsertCustomer(customers, nextCustomerId, customerName);
      // price every line from the catalog
      var pricing, totalPrice := PriceItems(catalog.rows, lines);
      if pricing.Err? {
        // ROLLBACK: the candidate tables are dropped
        assert State() == t;
        return Err(pricing.error);
      }
      var priced := pricing.value;
      // insert the order, then its items
      var orderId := nextOrderId;
      var newOrders := orders + [Order(orderId, userId, customerId, totalPrice, now)];
      var newItems := items + ItemRows(orderId, nextItemId, priced);
      ghost var outcome := CreateOutcome(t, catalog.rows, userId, customerName, lines, now);
      assert outcome.tables == Tables(users, candidateCustomers, newOrders, newItems,
                                      candidateNextCustomerId, orderId + 1, nextItemId + |priced|);
      // COMMIT
      customers, nextCustomerId := candidateCustomers, candidateNextCustomerId;
      orders, nextOrderId := newOrders, orderId + 1;
      items, nextItemId := newItems, nextItemId + |priced|;
      r := Ok(orderId);
      assert State() == outcome.tables;
      CreateKeepsValid(t, catalog.rows, userId, customerName, lines, now);
    }

    /** `Order.updateOrder`. */
    method UpdateOrder(orderId: int, customerId: int, customerName: string, totalPrice: int, orderDate: int)
      requires Valid()
      modifies this
      ensures Valid()
      ensures State() == UpdateOrderTables(old(State()), orderId, customerId, customerName, totalPrice, orderDate)
      ensures items == old(items)
    {
      UpdateOrderKeepsValid(State(), orderId, customerId, customerName, totalPrice, orderDate);
      customers := RenameCustomer(customers, customerId, customerName);
      orders := SetOrderFields(orders, orderId, customerId, totalPrice, orderDate);
    }

    /** `Order.deleteOrder`: the items first, then the order. */
    method DeleteOrder(orderId: int)
      requires Valid()
      modifies this
      ensures Valid()
      ensures State() == DeleteOrderTables(old(State()), orderId)
      ensures FindKey(orders, OrderId, orderId).None?
      ensures forall k :: 0 <= k < |items| ==> items[k].orderId != orderId
    {
      DeleteOrderEffect(State(), orderId);
      items := RemoveKey(items, ItemOrderId, orderId);
      orders := RemoveKey(orders, OrderId, orderId);
    }

    /** `Order.getReport`: reads, changes nothing. */
    method GetReport() returns (rows: seq<ReportRow>)
      requires Valid()
      ensures rows == Report(State())
      ensures |rows| == |orders|
      ensures forall k :: 0 <= k < |rows| ==>
                rows[k].orderId == orders[k].id && rows[k].totalItems == ItemCount(items, orders[k].id)
    {
      rows := Report(State());
      forall k | 0 <= k < |rows|
        ensures rows[k].orderId == orders[k].id && rows[k].totalItems == ItemCount(items, orders[k].id)
      {
        ReportRowsAt(State(), orders, k);
      }
    }
  }
}
