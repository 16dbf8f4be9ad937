/** The order HTTP handlers (server/controllers/orderControllers.js): the request checks
    in front of the order model and the mapping from the model's outcome to a status
    and a JSON body. Each handler is a function of the request and of what the model
    call returned; the model call itself is `OrderModel`. */
module OrderControllers {
  import opened Common
  import opened Rows
  import opened ProductModel
  import opened OrderModel

  /** The JSON body of `POST /orders`. A field the client left out is `None`;
      `items` is `None` when it is not an array. */
  datatype CreateOrderBody = CreateOrderBody(userId: Option<int>, customerName: Option<string>,
                                             items: Option<seq<Line>>)

  /** JavaScript truthiness of a numeric JSON field: present and not 0. */
  predicate TruthyId(v: Option<int>)
  {
    v.Some? && v.value != 0
  }

  /** The 400 guard of `createOrder`: `user_id` and `customer_name` truthy, `items` a non-empty array. */
  predicate ValidOrderData(body: CreateOrderBody)
  {
    && TruthyId(body.userId)
    && Truthy(body.customerName)
    && body.items.Some? && |body.items.value| != 0
  }

  /** What `createOrder` does with a request: answer at once, or call `Order.create` with these arguments. */
  datatype CreateStep =
    | Answer(response: Response<()>)
    | CallCreate(userId: int, customerName: string, lines: seq<Line>)

  /** The first half of `createOrder`: the request check. */
  function CreateOrderRequest(body: CreateOrderBody): (step: CreateStep)
    ensures step.Answer? <==> !ValidOrderData(body)
    ensures step.Answer? ==> step.response == Response(400, Message("Invalid order data."))
    ensures step.CallCreate? ==>
      && Some(step.userId) == body.userId && step.userId != 0
      && Some(step.customerName) == body.customerName && step.customerName != ""
      && Some(step.lines) == body.items && step.lines != []
  {
    if !ValidOrderData(body) then Answer(Response(400, Message("Invalid order data.")))
    else CallCreate(body.userId.value, body.customerName.value, body.items.value)
  }

  /** The second half of `createOrder`: the outcome of `Order.create` as a response. The
      model's error message is not passed on. */
  function CreateOrderReply(outcome: Result<nat, OrderError>): (response: Response<()>)
    ensures response.status == 201 <==> outcome.Ok?
    ensures outcome.Ok? ==> response.body == MessageWithId("Order placed successfully", outcome.value)
    ensures outcome.Err? ==> response == Response(500, ErrorBody("Error placing order."))
  {
    match outcome
    case Ok(orderId) => Response(201, MessageWithId("Order placed successfully", orderId))
    case Err(_) => Response(500, ErrorBody("Error placing order."))
  }

  /** `POST /orders` end to end: the handler in front of the `create` transaction. It answers
      201, 400 or 500, and only a 201 leaves the database changed. */
  function HandleCreateOrder(t: Tables, products: seq<Product>, body: CreateOrderBody, now: int)
    : (r: (Response<()>, Tables))
    ensures r.0.status == 201 || r.0.status == 400 || r.0.status == 500
    ensures r.0.status != 201 ==> r.1 == t
    ensures r.1.users == t.users
  {
    match CreateOrderRequest(body)
    case Answer(response) => (response, t)
    case CallCreate(userId, customerName, lines) =>
      var created := CreateOutcome(t, products, userId, customerName, lines, now);
      (CreateOrderReply(created.result), created.tables)
  }

  /** Through the handler, an order is placed exactly when the request passes the check and
      every line names a product in the catalog; the 201 carries the new order's id, which is
      then found in the orders table. Otherwise nothing in the database changes: a rejected
      request never reaches the model, and every model error, a missing product included,
      becomes the same 500. */
  lemma CreateOrderEndToEnd(t: Tables, products: seq<Product>, body: CreateOrderBody, now: int)
    requires TablesValid(t)
    ensures var (response, t') := HandleCreateOrder(t, products, body, now);
      && (!ValidOrderData(body) ==> response == Response(400, Message("Invalid order data.")) && t' == t)
      && (response.status == 201 <==>
            ValidOrderData(body)
            && forall k :: 0 <= k < |body.items.value| ==> FindProduct(products, body.items.value[k].id).Some?)
      && (response.status == 201 ==>
            && response.body == MessageWithId("Order placed successfully", t.nextOrderId)
            && FindKey(t'.orders, OrderId, t.nextOrderId).Some?
            && TablesValid(t'))
      && (response.status != 201 ==>
            t' == t && (ValidOrderData(body) ==> response == Response(500, ErrorBody("Error placing order."))))
  {
    var (response, t') := HandleCreateOrder(t, products, body, now);
    if ValidOrderData(body) {
      var lines := body.items.value;
      var created := CreateOutcome(t, products, body.userId.value, body.customerName.value, lines, now);
      if created.result.Ok? {
        CreateAppendsRows(t, products, body.userId.value, body.customerName.value, lines, now);
        CreateKeepsValid(t, products, body.userId.value, body.customerName.value, lines, now);
        var o := t'.orders[|t.orders|];
        assert t'.orders == t.orders + [o];
        FindKeyAppend(t.orders, OrderId, o, t.nextOrderId);
      }
    }
  }

  /** `getOrderReport`: the model's rows as they are with 200, or a fixed 500. */
  function OrderReportReply(outcome: Result<seq<ReportRow>, string>): (response: Response<seq<ReportRow>>)
    ensures outcome.Ok? ==> response == Response(200, Data(outcome.value))
    ensures outcome.Err? ==> response == Response(500, ErrorBody("Error fetching order report."))
  {
    match outcome
    case Ok(rows) => Response(200, Data(rows))
    case Err(_) => Response(500, ErrorBody("Error fetching order report."))
  }

  /** The JSON body of `PUT /orders/:orderId`, read under its camelCase names. */
  datatype UpdateOrderBody = UpdateOrderBody(customerId: int, customerName: string, totalPrice: int, orderDate: int)

  /** The arguments `updateOrder` passes to `Order.updateOrder`, in their order. */
  datatype UpdateCall = UpdateCall(orderId: int, customerId: int, customerName: string, totalPrice: int, orderDate: int)

  /** `updateOrder` forwards the path's order id and the four body fields without any check. */
  function UpdateOrderRequest(orderId: int, body: UpdateOrderBody): (call: UpdateCall)
    ensures call.orderId == orderId
    ensures (call.customerId, call.customerName, call.totalPrice, call.orderDate)
            == (body.customerId, body.customerName, body.totalPrice, body.orderDate)
  {
    UpdateCall(orderId, body.customerId, body.customerName, body.totalPrice, body.orderDate)
  }

  /** A write that resolved, or the message of the database error it was rejected with. */
  type WriteOutcome = Result<(), string>

  /** The reply of `updateOrder` and of `deleteOrder` once the model call has settled:
      200 with the success message, or 500 carrying the error's own message. */
  function WriteReply(outcome: WriteOutcome, success: string): (response: Response<()>)
    ensures outcome.Ok? ==> response == Response(StatusOk, Message(success))
    ensures outcome.Err? ==> response == Response(500, ErrorBody(outcome.error))
  {
    match outcome
    case Ok(_) => Response(StatusOk, Message(success))
    case Err(message) => Response(500, ErrorBody(message))
  }

  /** `PUT /orders/:orderId` end to end, when the database accepts both statements: always
      200, with the item rows, the users and the number of orders and customers as before. */
  function HandleUpdateOrder(t: Tables, orderId: int, body: UpdateOrderBody): (r: (Response<()>, Tables))
    ensures r.0.status == 200
    ensures r.1.items == t.items && r.1.users == t.users
    ensures |r.1.orders| == |t.orders| && |r.1.customers| == |t.customers|
  {
    var call := UpdateOrderRequest(orderId, body);
    (WriteReply(Ok(()), "Order updated successfully"),
     UpdateOrderTables(t, call.orderId, call.customerId, call.customerName, call.totalPrice, call.orderDate))
  }

  /** An update is reported as done whether or not the order exists; it keeps the tables well
      formed and the item rows as they were, so every order's item count and revenue in the
      report stay what they were, whatever `totalPrice` the client sent. */
  lemma UpdateOrderEndToEnd(t: Tables, orderId: int, body: UpdateOrderBody)
    requires TablesValid(t)
    ensures var (response, t') := HandleUpdateOrder(t, orderId, body);
      && response == Response(200, Message("Order updated successfully"))
      && TablesValid(t') && t'.items == t.items
      && |Report(t')| == |Report(t)|
      && forall k :: 0 <= k < |Report(t)| ==>
           Report(t')[k].totalItems == Report(t)[k].totalItems
           && Report(t')[k].totalRevenue == Report(t)[k].totalRevenue
  {
    UpdateOrderKeepsValid(t, orderId, body.customerId, body.customerName, body.totalPrice, body.orderDate);
    UpdateOrderReport(t, orderId, body.customerId, body.customerName, body.totalPrice, body.orderDate);
  }

  /** What `deleteOrder` does with a request: answer at once, or call `Order.deleteOrder`. */
  datatype DeleteStep = DeleteAnswer(response: Response<()>) | CallDelete(orderId: int)

  /** The request check of `deleteOrder`; the path parameter is `None` when it is missing. */
  function DeleteOrderRequest(orderId: Option<int>): (step: DeleteStep)
    ensures step.DeleteAnswer? <==> orderId.None?
    ensures step.DeleteAnswer? ==> step.response == Response(400, Message("Invalid order ID."))
    ensures step.CallDelete? ==> Some(step.orderId) == orderId
  {
    match orderId
    case None => DeleteAnswer(Response(400, Message("Invalid order ID.")))
    case Some(id) => CallDelete(id)
  }

  /** `DELETE /orders/:orderId` end to end, when the database accepts both statements: 400
      and no change without an id, otherwise 200 and no order row with that id remains. */
  function HandleDeleteOrder(t: Tables, orderId: Option<int>): (r: (Response<()>, Tables))
    ensures orderId.None? ==> r.0.status == 400 && r.1 == t
    ensures orderId.Some? ==> r.0.status == 200 && forall k :: 0 <= k < |r.1.orders| ==> r.1.orders[k].id != orderId.value
    ensures r.1.users == t.users && r.1.customers == t.customers
  {
    match DeleteOrderRequest(orderId)
    case DeleteAnswer(response) => (response, t)
    case CallDelete(id) => (WriteReply(Ok(()), "Order deleted successfully"), DeleteOrderTables(t, id))
  }

  /** A missing id is answered with 400 and nothing changes; any other id is reported as
      deleted whether or not such an order existed, and afterwards no order has it. */
  lemma DeleteOrderEndToEnd(t: Tables, orderId: Option<int>)
    requires TablesValid(t)
    ensures var (response, t') := HandleDeleteOrder(t, orderId);
      && (orderId.None? ==> response.status == 400 && t' == t)
      && (orderId.Some? ==>
            && response == Response(200, Message("Order deleted successfully"))
            && FindKey(t'.orders, OrderId, orderId.value).None?
            && TablesValid(t')
            && (FindKey(t.orders, OrderId, orderId.value).None? ==> t' == t))
  {
    if orderId.Some? {
      DeleteOrderEffect(t, orderId.value);
      if FindKey(t.orders, OrderId, orderId.value).None? {
        DeleteAbsentOrderIsNoop(t, orderId.value);
      }
    }
  }
}
