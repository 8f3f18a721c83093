/** The stock-relevant parts of the order controller
    (`controller/OrderController.js`): order creation with its reservation and
    compensation, the customer's cancel action, the rating guards, the
    tracking-progress formula and the pagination arithmetic. */
module OrderController {
  import opened Wrappers
  import opened ShopStock
  import opened StockManager
  import opened OrderSchema

  /** The status code and message of a response. */
  datatype Response = Response(code: nat, message: string)

  /** JavaScript's `value || fallback` for an optional string: absent and empty both fall back. */
  function OrElse(value: Option<string>, fallback: string): (r: string)
    ensures value.Some? && value.value != "" ==> r == value.value
    ensures value.None? || value.value == "" ==> r == fallback
  {
    if value.Some? && value.value != "" then value.value else fallback
  }

  /** The orders collection. */
  class OrderBook {
    var orders: seq<Order>

    constructor ()
      ensures orders == []
    {
      orders := [];
    }
  }

  /** The collection after `findByIdAndDelete`. */
  function Without(orders: seq<Order>, o: Order): (r: seq<Order>)
    ensures o !in r && forall i :: 0 <= i < |r| ==> r[i] in orders
    ensures forall x :: x in orders && x != o ==> x in r
    ensures o !in orders ==> r == orders
  {
    if orders == [] then []
    else (if orders[0] == o then [] else [orders[0]]) + Without(orders[1..], o)
  }

  /** Deleting a just-added order gives back the collection as it was. */
  lemma {:induction false} WithoutAppended(orders: seq<Order>, o: Order)
    requires o !in orders
    ensures Without(orders + [o], o) == orders
  {
    if orders == [] {
      assert [o][1..] == [];
    } else {
      assert (orders + [o])[0] == orders[0] != o;
      assert (orders + [o])[1..] == orders[1..] + [o];
      WithoutAppended(orders[1..], o);
      assert orders == [orders[0]] + orders[1..];
    }
  }

  // ---------------------------------------------------------------------------
  // Order creation

  /** The two request formats. The new format carries order details, delivery
      and payment information; the legacy format names a legacy stock record
      and a quantity (default 1). */
  datatype CreateRequest =
    | NewFormat(shopId: Option<string>, gasStockId: Option<string>, details: OrderDetails,
                paymentMethod: Option<PaymentMethod>, paymentStatus: Option<PaymentStatus>,
                transactionId: Option<string>)
    | LegacyFormat(gasStockId: Option<string>, quantity: Option<nat>, paymentMethod: Option<PaymentMethod>)

  function LegacyQuantity(quantity: Option<nat>): nat {
    if quantity.Some? then quantity.value else DefaultQuantity
  }

  function MethodOrDefault(m: Option<PaymentMethod>): PaymentMethod {
    if m.Some? then m.value else DefaultPaymentMethod
  }

  /** The payment information an order is created with: a legacy order is always
      pending, a new-format order takes the status it was sent (default Pending). */
  function InitialPayment(request: CreateRequest): (p: PaymentInfo)
    ensures request.LegacyFormat? ==> p.paymentStatus == PaymentPending
    ensures request.NewFormat? && request.paymentStatus.None? ==> p.paymentStatus == PaymentPending
    ensures request.NewFormat? && request.paymentStatus.Some? ==> p.paymentStatus == request.paymentStatus.value
    ensures p.paymentMethod == MethodOrDefault(request.paymentMethod)
  {
    match request
    case NewFormat(_, _, _, m, s, t) =>
      PaymentInfo(MethodOrDefault(m), if s.Some? then s.value else DefaultPaymentStatus, t)
    case LegacyFormat(_, _, m) => PaymentInfo(MethodOrDefault(m), PaymentPending, None)
  }

  /** Only a paid order reserves stock when it is placed; a legacy order never does. */
  lemma LegacyOrdersNeverReserve(request: CreateRequest)
    requires request.LegacyFormat?
    ensures InitialPayment(request).paymentStatus != Paid
  {
  }

  function RequestOf(d: OrderDetails): (r: StockRequest)
    ensures r.gasBrand == d.gasBrand && r.gasType == d.gasType && r.quantity == d.quantity
  {
    StockRequest(d.gasBrand, d.gasType, d.quantity)
  }

  /** Saves a new pending order into the collection; the pre-save hook logs its first status. */
  method StoreOrder(book: OrderBook, customerId: string, shopId: Option<string>, gasStockId: Option<string>,
                    details: OrderDetails, payment: PaymentInfo, now: int) returns (order: Order)
    modifies book
    ensures fresh(order) && order !in old(book.orders) && book.orders == old(book.orders) + [order]
    ensures order.customerId == customerId && order.shopId == shopId && order.gasStockId == gasStockId
    ensures order.orderDetails == details && order.paymentInfo == payment
    ensures order.orderStatus == Pending && order.statusHistory == [HookEntry(Pending, now)]
  {
    order := new Order(customerId, shopId, gasStockId, details, payment, Pending);
    book.orders := book.orders + [order];
    order.Save(now);
  }

  /** The legacy path's answer and what it does to the legacy record: missing
      record 404, short counter or no price 400 with the counter as it was,
      otherwise 201 with the counter lowered by the quantity. */
  twostate predicate LegacyOrderStock(gasStockId: Option<string>, quantity: Option<nat>, finalPrice: Option<int>,
                                      gasStock: GasStock?, resp: Response)
    reads gasStock
  {
    && (gasStockId.None? || gasStock == null ==> resp == Response(404, "Gas stock not found"))
    && (gasStockId.Some? && gasStock != null ==>
          var q := LegacyQuantity(quantity);
          && (old(gasStock.gasAvailableQty) < q ==>
                resp == Response(400, "Insufficient stock available")
                && gasStock.gasAvailableQty == old(gasStock.gasAvailableQty))
          && (old(gasStock.gasAvailableQty) >= q && finalPrice.None? ==>
                resp == Response(400, "Price not available for this gas type")
                && gasStock.gasAvailableQty == old(gasStock.gasAvailableQty))
          && (old(gasStock.gasAvailableQty) >= q && finalPrice.Some? ==>
                resp.code == 201 && gasStock.gasAvailableQty == old(gasStock.gasAvailableQty) - q))
    && (resp.code != 201 && gasStock != null ==> gasStock.gasAvailableQty == old(gasStock.gasAvailableQty))
    && (gasStock != null ==> gasStock.SameProduct())
  }

  /** `createOrder` in the legacy format: the legacy record must exist and cover
      the quantity, and a price must be set; the record is then decremented and
      a pending, unpaid order is stored. */
  method CreateLegacyOrder(book: OrderBook, customerId: string, gasStockId: Option<string>, quantity: Option<nat>,
                           paymentMethod: Option<PaymentMethod>, gasStock: GasStock?, finalPrice: Option<int>, now: int)
    returns (resp: Response, order: Order?)
    modifies book, gasStock
    ensures resp.code == 201 ==>
      && resp.message == "Order created successfully"
      && order != null && fresh(order) && book.orders == old(book.orders) + [order]
      && order.orderStatus == Pending && order.statusHistory == [HookEntry(Pending, now)]
      && order.paymentInfo == PaymentInfo(MethodOrDefault(paymentMethod), PaymentPending, None)
      && order.customerId == customerId
    ensures resp.code != 201 ==> book.orders == old(book.orders)
    ensures LegacyOrderStock(gasStockId, quantity, finalPrice, gasStock, resp)
    ensures resp.code == 201 ==>
      && order.orderDetails == OrderDetails(old(gasStock.gasType), old(gasStock.gasBrand), LegacyQuantity(quantity),
                                            finalPrice.value, finalPrice.value * LegacyQuantity(quantity))
      && order.shopId == None && order.gasStockId == gasStockId
  {
    if gasStockId.None? || gasStock == null {
      return Response(404, "Gas stock not found"), null;
    }
    var q := LegacyQuantity(quantity);
    if gasStock.gasAvailableQty < q {
      return Response(400, "Insufficient stock available"), null;
    }
    if finalPrice.None? {
      return Response(400, "Price not available for this gas type"), null;
    }
    var details := OrderDetails(gasStock.gasType, gasStock.gasBrand, q, finalPrice.value, finalPrice.value * q);
    gasStock.gasAvailableQty := gasStock.gasAvailableQty - q;
    order := StoreOrder(book, customerId, None, gasStockId, details,
                        PaymentInfo(MethodOrDefault(paymentMethod), PaymentPending, None), now);
    resp := Response(201, "Order created successfully");
  }

  /** A paid new-format order: it is stored, then reserves its stock, and the
      reservation's result `r` is also returned. When the reservation fails the
      order is deleted again. On that failure the code also credits the order
      quantity back to the legacy record when only a legacy id is set, although
      the failed reservation took nothing; this method leaves the record as it
      was (see `ReserveAndCompensateAsWritten`). */
  method PlacePaidOrder(book: OrderBook, customerId: string, shopId: Option<string>, gasStockId: Option<string>,
                        details: OrderDetails, payment: PaymentInfo, shopStock: Ledger?, gasStock: GasStock?, now: int)
    returns (resp: Response, order: Order?, r: StockResult)
    requires shopStock != null ==> shopStock.Valid()
    modifies book, shopStock, gasStock
    ensures shopStock != null ==> shopStock.Valid()
    ensures resp == SettledResponse(r)
    ensures r.Failed? ==> book.orders == old(book.orders) && order == null
    ensures !r.Failed? ==>
      && order != null && fresh(order) && book.orders == old(book.orders) + [order]
      && order.orderStatus == Pending && order.statusHistory == [HookEntry(Pending, now)]
      && order.customerId == customerId && order.shopId == shopId && order.gasStockId == gasStockId
      && order.orderDetails == details && order.paymentInfo == payment
    ensures ReserveEffect(RequestOf(details), shopId, gasStockId, shopStock, gasStock, now, r)
  {
    ghost var before := book.orders;
    var stored := StoreOrder(book, customerId, shopId, gasStockId, details, payment, now);
    r := ReserveStock(RequestOf(details), shopId, gasStockId, shopStock, gasStock, now);
    resp, order := Settle(book, before, stored, r);
  }

  /** The stock side of a paid order's reservation as the code is written: when
      the reservation fails and only a legacy id is set, the legacy record is
      credited the order quantity. The reservation fails there exactly when the
      counter is short, and then it took nothing, so the record ends with more
      units than it held. */
  method ReserveAndCompensateAsWritten(request: StockRequest, shopId: Option<string>, gasStockId: Option<string>,
                                       shopStock: Ledger?, gasStock: GasStock?, now: int) returns (r: StockResult)
    requires shopStock != null ==> shopStock.Valid()
    modifies shopStock, gasStock
    ensures shopStock != null ==> shopStock.Valid()
    ensures shopId.None? && gasStockId.Some? && gasStock != null && old(gasStock.gasAvailableQty) < request.quantity ==>
      && r == Failed(InsufficientMessage(old(gasStock.gasAvailableQty), request.quantity))
      && gasStock.gasAvailableQty == old(gasStock.gasAvailableQty) + request.quantity
  {
    r := ReserveStock(request, shopId, gasStockId, shopStock, gasStock, now);
    if r.Failed? && gasStockId.Some? && shopId.None? && gasStock != null {
      gasStock.gasAvailableQty := gasStock.gasAvailableQty + request.quantity;
    }
  }

  /** The response to a paid order's reservation result; a failed reservation deletes the order. */
  function SettledResponse(r: StockResult): (resp: Response)
    ensures r.Succeeded? <==> resp.code == 201
    ensures r.Absent? <==> resp.code == 500
    ensures r.Failed? ==> resp == Response(400, "Order cancelled: " + r.message)
  {
    match r
    case Absent => Response(500, "Error creating order")
    case Failed(m) => Response(400, "Order cancelled: " + m)
    case Succeeded(_, _, _) => Response(201, "Order created successfully")
  }

  method Settle(book: OrderBook, ghost before: seq<Order>, order: Order, stockResult: StockResult)
    returns (resp: Response, kept: Order?)
    requires book.orders == before + [order] && order !in before
    modifies book
    ensures resp == SettledResponse(stockResult)
    ensures stockResult.Failed? ==> book.orders == before && kept == null
    ensures !stockResult.Failed? ==> book.orders == old(book.orders) && kept == order
  {
    if stockResult.Failed? {
      WithoutAppended(before, order);
      book.orders := Without(book.orders, order);
      kept := null;
    } else {
      kept := order;
    }
    resp := SettledResponse(stockResult);
  }

  /** The new-format path's answer and what it does to the stock records: a
      named shop that does not exist gives 404 and an unpaid order 201, both
      reserving nothing and changing no record; a paid order reserves, and the
      answer is the one its reservation result maps to. */
  twostate predicate NewOrderStock(request: CreateRequest, shopFound: bool, shopStock: Ledger?, gasStock: GasStock?,
                                   now: int, resp: Response, new reservation: Option<StockResult>)
    requires request.NewFormat?
    reads shopStock, gasStock
  {
    && (request.shopId.Some? && !shopFound ==>
          && resp == Response(404, "Shop not found") && reservation == None
          && (shopStock != null ==> unchanged(shopStock)) && (gasStock != null ==> unchanged(gasStock)))
    && ((request.shopId.None? || shopFound) && InitialPayment(request).paymentStatus != Paid ==>
          && resp.code == 201 && reservation == None
          && (shopStock != null ==> unchanged(shopStock)) && (gasStock != null ==> unchanged(gasStock)))
    && ((request.shopId.None? || shopFound) && InitialPayment(request).paymentStatus == Paid ==>
          reservation.Some? && resp == SettledResponse(reservation.value))
    && (reservation.Some? ==>
          ReserveEffect(RequestOf(request.details), request.shopId, request.gasStockId, shopStock, gasStock, now,
                        reservation.value))
  }

  /** `createOrder` in the new format. A named shop must exist; the order is
      stored pending with the payment status it was sent, and a paid order then
      reserves its stock; `reservation` is that reservation's result. */
  method CreateNewOrder(book: OrderBook, customerId: string, request: CreateRequest, shopFound: bool,
                        shopStock: Ledger?, gasStock: GasStock?, now: int)
    returns (resp: Response, order: Order?, reservation: Option<StockResult>)
    requires request.NewFormat?
    requires shopStock != null ==> shopStock.Valid()
    modifies book, shopStock, gasStock
    ensures shopStock != null ==> shopStock.Valid()
    ensures resp.code == 201 ==>
      && resp.message == "Order created successfully"
      && order != null && fresh(order) && book.orders == old(book.orders) + [order]
      && order.orderStatus == Pending && order.statusHistory == [HookEntry(Pending, now)]
      && order.paymentInfo == InitialPayment(request) && order.customerId == customerId
      && order.orderDetails == request.details && order.shopId == request.shopId && order.gasStockId == request.gasStockId
    ensures resp.code != 201 && resp.code != 500 ==> book.orders == old(book.orders)
    ensures NewOrderStock(request, shopFound, shopStock, gasStock, now, resp, reservation)
    ensures reservation.Some? && reservation.value.Absent? ==> order != null && book.orders == old(book.orders) + [order]
  {
    if request.shopId.Some? && !shopFound {
      return Response(404, "Shop not found"), null, None;
    }
    var payment := InitialPayment(request);
    if payment.paymentStatus == Paid {
      var r;
      resp, order, r := PlacePaidOrder(book, customerId, request.shopId, request.gasStockId, request.details, payment,
                                       shopStock, gasStock, now);
      reservation := Some(r);
    } else {
      order := StoreOrder(book, customerId, request.shopId, request.gasStockId, request.details, payment, now);
      resp := Response(201, "Order created successfully");
      reservation := None;
    }
  }

  /** `createOrder`. `shopFound` says whether a shop exists for the request's
      shop id; `shopStock` is the ledger loaded for that shop and `gasStock` the
      legacy record loaded for the request's legacy id (null when none is
      found); `finalPrice` is the current unit price of the legacy record's
      product, if one is set. */
  method CreateOrder(book: OrderBook, customerId: string, request: CreateRequest, shopFound: bool,
                     shopStock: Ledger?, gasStock: GasStock?, finalPrice: Option<int>, now: int)
    returns (resp: Response, order: Order?, reservation: Option<StockResult>)
    requires shopStock != null ==> shopStock.Valid()
    modifies book, shopStock, gasStock
    ensures shopStock != null ==> shopStock.Valid()
    // a created order is stored, pending, with its first history entry
    ensures resp.code == 201 ==>
      && resp.message == "Order created successfully"
      && order != null && fresh(order) && book.orders == old(book.orders) + [order]
      && order.orderStatus == Pending && order.statusHistory == [HookEntry(Pending, now)]
      && order.paymentInfo == InitialPayment(request) && order.customerId == customerId
    ensures resp.code != 201 && resp.code != 500 ==> book.orders == old(book.orders)
    // a legacy order never reserves and never touches a shop ledger
    ensures request.LegacyFormat? ==>
      && resp.code != 500 && reservation == None && (shopStock != null ==> unchanged(shopStock))
      && LegacyOrderStock(request.gasStockId, request.quantity, finalPrice, gasStock, resp)
    ensures request.NewFormat? ==> NewOrderStock(request, shopFound, shopStock, gasStock, now, resp, reservation)
    // an order that is not created leaves every stock record as it was
    ensures resp.code != 201 ==>
      && (shopStock != null ==> shopStock.gasStocks == old(shopStock.gasStocks)
                                && shopStock.stockHistory == old(shopStock.stockHistory))
      && (gasStock != null ==> gasStock.gasAvailableQty == old(gasStock.gasAvailableQty))
  {
    match request {
      case LegacyFormat(gid, qty, m) =>
        resp, order := CreateLegacyOrder(book, customerId, gid, qty, m, gasStock, finalPrice, now);
        reservation := None;
      case NewFormat(_, _, _, _, _, _) =>
        resp, order, reservation := CreateNewOrder(book, customerId, request, shopFound, shopStock, gasStock, now);
    }
  }

  // ---------------------------------------------------------------------------
  // Customer cancel

  /** The states from which a customer may cancel. */
  predicate Cancellable(s: OrderStatus) {
    s == Pending || s == Confirmed
  }

  /** The reason the cancel path hands to `restoreStock`. */
  function RestoreReason(reason: Option<string>): string {
    "Order cancelled by customer: " + OrElse(reason, "No reason provided")
  }

  /** What cancelling a cancellable order does. Its status, reason and
      history change and nothing else of it; the restore goes to the ledger
      when the order names a shop and to the legacy record otherwise, and the
      record it does not use is left as it was. With neither id the answer is
      500. */
  twostate predicate CancelEffect(order: Order, reason: Option<string>, shopStock: Ledger?, gasStock: GasStock?,
                                  now: int, resp: Response)
    reads order, shopStock, gasStock
  {
    && order.shopId == old(order.shopId) && order.gasStockId == old(order.gasStockId)
    && (order.shopId.None? && order.gasStockId.None? ==> resp == Response(500, "Error canceling order"))
    && (order.shopId.Some? || order.gasStockId.Some? ==>
          && resp == Response(200, "Order canceled successfully")
          && order.orderStatus == OrderStatus.Cancelled
          && order.cancellationReason == Some(OrElse(reason, "Cancelled by customer"))
          && order.statusHistory == old(order.statusHistory) + [HookEntry(OrderStatus.Cancelled, now)]
          && order.orderDetails == old(order.orderDetails) && order.paymentInfo == old(order.paymentInfo)
          && order.customerId == old(order.customerId) && order.customerRating == old(order.customerRating)
          && order.refundAmount == old(order.refundAmount))
    && (order.shopId.Some? && gasStock != null ==> gasStock.gasAvailableQty == old(gasStock.gasAvailableQty))
    && (order.shopId.None? && shopStock != null ==> unchanged(shopStock))
    && (order.shopId.Some? && shopStock != null ==>
          match RestoreChange(old(shopStock.gasStocks), RequestOf(old(order.orderDetails)),
                              RestoreReason(reason), now)
          case Err(_) =>
            shopStock.gasStocks == old(shopStock.gasStocks) && shopStock.stockHistory == old(shopStock.stockHistory)
          case Ok(c) =>
            && shopStock.gasStocks == old(shopStock.gasStocks)[c.index := c.line]
            && shopStock.stockHistory == old(shopStock.stockHistory) + [c.entry])
    && (order.shopId.None? && order.gasStockId.Some? && gasStock != null ==>
          gasStock.gasAvailableQty == old(gasStock.gasAvailableQty) + old(order.orderDetails).quantity)
  }

  /** `updateOrderStatus` for an order loaded for the customer (`order` is null
      when none is found). Only the action "cancel" exists; it always calls
      `restoreStock`, and a failed restore does not stop the cancellation. When
      the order names neither a shop nor a legacy record the restore result is
      undefined, reading it throws and nothing is saved. */
  method UpdateOrderStatus(order: Order?, action: string, reason: Option<string>,
                           shopStock: Ledger?, gasStock: GasStock?, now: int) returns (resp: Response)
    requires order != null ==> order.savedStatus == Some(order.orderStatus)
    requires shopStock != null ==> shopStock.Valid()
    modifies order, shopStock, gasStock
    ensures shopStock != null ==> shopStock.Valid()
    ensures order == null ==> resp == Response(404, "Order not found")
    ensures order != null && action != "cancel" ==> resp == Response(400, "Invalid action")
    ensures order != null && action == "cancel" && !Cancellable(old(order.orderStatus)) ==>
      resp == Response(400, "Order cannot be cancelled at this stage")
    ensures resp.code != 200 ==>
      (order != null ==> unchanged(order))
    ensures resp.code != 200 && shopStock != null ==> unchanged(shopStock)
    ensures resp.code != 200 && gasStock != null ==> gasStock.gasAvailableQty == old(gasStock.gasAvailableQty)
    ensures order != null && action == "cancel" && Cancellable(old(order.orderStatus)) ==>
      CancelEffect(order, reason, shopStock, gasStock, now, resp)
    ensures shopStock != null ==> shopStock.SameStamp()
    ensures gasStock != null ==> gasStock.SameProduct()
  {
    if order == null {
      return Response(404, "Order not found");
    }
    if action != "cancel" {
      return Response(400, "Invalid action");
    }
    if !Cancellable(order.orderStatus) {
      return Response(400, "Order cannot be cancelled at this stage");
    }
    resp := CancelOrder(order, reason, shopStock, gasStock, now);
  }

  /** The cancel action on an order whose status allows it. */
  method CancelOrder(order: Order, reason: Option<string>, shopStock: Ledger?, gasStock: GasStock?, now: int)
    returns (resp: Response)
    requires order.savedStatus == Some(order.orderStatus) && Cancellable(order.orderStatus)
    requires shopStock != null ==> shopStock.Valid()
    modifies order, shopStock, gasStock
    ensures shopStock != null ==> shopStock.Valid()
    ensures CancelEffect(order, reason, shopStock, gasStock, now, resp)
    ensures resp.code != 200 ==> unchanged(order)
    ensures resp.code != 200 && shopStock != null ==> unchanged(shopStock)
    ensures resp.code != 200 && gasStock != null ==> gasStock.gasAvailableQty == old(gasStock.gasAvailableQty)
    ensures shopStock != null ==> shopStock.SameStamp()
    ensures gasStock != null ==> gasStock.SameProduct()
  {
    var request, shopId, gasStockId := RequestOf(order.orderDetails), order.shopId, order.gasStockId;
    var stockResult := RestoreStock(request, shopId, gasStockId, Some(RestoreReason(reason)), shopStock, gasStock, now);
    if stockResult.Absent? {
      return Response(500, "Error canceling order");
    }
    MarkCancelled(order, OrElse(reason, "Cancelled by customer"), now);
    resp := Response(200, "Order canceled successfully");
  }

  /** The order's side of a cancellation: the new status and reason, saved. */
  method MarkCancelled(order: Order, reason: string, now: int)
    requires order.savedStatus == Some(order.orderStatus)
    modifies order
    ensures order.orderStatus == OrderStatus.Cancelled && order.cancellationReason == Some(reason)
    ensures old(order.orderStatus) != OrderStatus.Cancelled ==>
      order.statusHistory == old(order.statusHistory) + [HookEntry(OrderStatus.Cancelled, now)]
    ensures order.shopId == old(order.shopId) && order.gasStockId == old(order.gasStockId)
    ensures order.orderDetails == old(order.orderDetails) && order.paymentInfo == old(order.paymentInfo)
    ensures order.customerId == old(order.customerId) && order.customerRating == old(order.customerRating)
    ensures order.refundAmount == old(order.refundAmount)
  {
    order.orderStatus := OrderStatus.Cancelled;
    order.cancellationReason := Some(reason);
    order.Save(now);
  }

  // ---------------------------------------------------------------------------
  // Rating

  /** `customerRating.rating` is truthy. */
  predicate Rated(r: CustomerRating) {
    r.rating.Some? && r.rating.value != 0
  }

  datatype RatingDecision = Accept | Reject(code: nat, message: string)

  /** The guards of `rateOrder`, in their order. `delivered` is the status of the
      customer's order with that id, if there is one. */
  function RatingCheck(rating: Option<int>, status: Option<OrderStatus>, current: CustomerRating): (d: RatingDecision)
    ensures d.Accept? <==>
      rating.Some? && 1 <= rating.value <= 5 && status == Some(Delivered) && !Rated(current)
    ensures !(rating.Some? && 1 <= rating.value <= 5) ==> d == Reject(400, "Rating must be between 1 and 5")
    ensures rating.Some? && 1 <= rating.value <= 5 && status != Some(Delivered) ==>
      d == Reject(404, "Order not found or not eligible for rating")
    ensures rating.Some? && 1 <= rating.value <= 5 && status == Some(Delivered) && Rated(current) ==>
      d == Reject(400, "Order already rated")
  {
    if rating.None? || rating.value == 0 || rating.value < 1 || rating.value > 5 then
      Reject(400, "Rating must be between 1 and 5")
    else if status != Some(Delivered) then Reject(404, "Order not found or not eligible for rating")
    else if Rated(current) then Reject(400, "Order already rated")
    else Accept
  }

  /** The rating an accepted request records. */
  function NewRating(rating: int, review: Option<string>, now: int): CustomerRating {
    CustomerRating(Some(rating), Some(OrElse(review, "")), Some(now))
  }

  /** An order can be rated once: after an accepted rating every further valid
      rating is refused as already rated. */
  lemma RateOnce(rating: int, review: Option<string>, now: int, again: Option<int>)
    requires 1 <= rating <= 5
    requires again.Some? && 1 <= again.value <= 5
    ensures RatingCheck(again, Some(Delivered), NewRating(rating, review, now)) == Reject(400, "Order already rated")
  {
  }

  /** `rateOrder` on the customer's order with that id (null when there is none). */
  method RateOrder(order: Order?, rating: Option<int>, review: Option<string>, now: int) returns (resp: Response)
    requires order != null ==> order.savedStatus == Some(order.orderStatus)
    modifies order
    ensures var d := RatingCheck(rating, if order == null then None else Some(old(order.orderStatus)),
                                 if order == null then NoRating else old(order.customerRating));
      && (d.Reject? ==> resp == Response(d.code, d.message) && (order != null ==> unchanged(order)))
      && (d.Accept? ==>
            && resp == Response(200, "Order rated successfully")
            && order.customerRating == NewRating(rating.value, review, now)
            && order.orderStatus == old(order.orderStatus)
            && order.statusHistory == old(order.statusHistory)
            && order.customerId == old(order.customerId)
            && order.shopId == old(order.shopId) && order.gasStockId == old(order.gasStockId)
            && order.orderDetails == old(order.orderDetails) && order.paymentInfo == old(order.paymentInfo)
            && order.cancellationReason == old(order.cancellationReason)
            && order.refundAmount == old(order.refundAmount))
  {
    var d := RatingCheck(rating, if order == null then None else Some(order.orderStatus),
                         if order == null then NoRating else order.customerRating);
    if d.Reject? {
      return Response(d.code, d.message);
    }
    order.customerRating := NewRating(rating.value, review, now);
    order.Save(now);
    resp := Response(200, "Order rated successfully");
  }

  // ---------------------------------------------------------------------------
  // Tracking progress

  /** `statusSteps.indexOf(status)` over Pending, Confirmed, Processing,
      Out for Delivery, Delivered; -1 for the others. */
  function StepIndex(s: OrderStatus): (i: int)
    ensures -1 <= i < 5
    ensures i == -1 <==> s == OrderStatus.Cancelled || s == Returned
  {
    match s
    case Pending => 0
    case Confirmed => 1
    case Processing => 2
    case OutForDelivery => 3
    case Delivered => 4
    case Cancelled => -1
    case Returned => -1
  }

  /** `Math.round(n / d)` for non-negative `n` and positive `d`: halves round up. */
  function Round(n: nat, d: nat): (r: nat)
    requires d > 0
    ensures 2 * n < (2 * r + 1) * d && (2 * r - 1) * d <= 2 * n
  {
    (2 * n + d) / (2 * d)
  }

  /** The progress percentage `trackOrder` reports. */
  function Progress(s: OrderStatus): (p: nat)
    ensures p <= 100
    ensures s == OrderStatus.Cancelled ==> p == 0
    ensures s != OrderStatus.Cancelled ==> p == Round(100 * (StepIndex(s) + 1), 5)
  {
    if s == OrderStatus.Cancelled then 0 else Round(100 * (StepIndex(s) + 1), 5)
  }

  /** Each step of the delivery path is worth 20 percent. */
  lemma ProgressSteps(s: OrderStatus)
    ensures Progress(s) == 20 * (StepIndex(s) + 1)
    ensures Progress(s) == 0 <==> s == OrderStatus.Cancelled || s == Returned
    ensures Progress(s) == 100 <==> s == Delivered
  {
    var k := StepIndex(s) + 1;
    if s != OrderStatus.Cancelled {
      assert 2 * (100 * k) + 5 == 10 * (20 * k) + 5;
      assert Round(100 * k, 5) == (10 * (20 * k) + 5) / 10;
    }
  }

  /** Progress only grows along the delivery path. */
  lemma ProgressMonotone(a: OrderStatus, b: OrderStatus)
    requires StepIndex(a) < StepIndex(b)
    ensures Progress(a) < Progress(b)
  {
    ProgressSteps(a);
    ProgressSteps(b);
  }

  // ---------------------------------------------------------------------------
  // Pagination

  /** `Math.ceil(a / b)` for positive `b`. */
  function CeilDiv(a: nat, b: nat): (r: nat)
    requires b > 0
    ensures a <= r * b && (r == 0 || (r - 1) * b < a)
  {
    (a + b - 1) / b
  }

  /** The page metadata of `getCustomerOrders`. A limit of 0 makes
      `Math.ceil(total / 0)` infinite (or NaN with no orders), written `None`. */
  datatype PageInfo = PageInfo(currentPage: int, totalPages: Option<nat>, totalOrders: nat,
                               hasNextPage: bool, hasPrevPage: bool, skip: int)

  function Pagination(total: nat, page: int, limit: nat): (r: PageInfo)
    ensures r.totalOrders == total && r.currentPage == page
    ensures r.hasPrevPage <==> page > 1
    ensures limit > 0 ==> r.totalPages.Some? && r.totalPages.value == CeilDiv(total, limit)
    ensures limit > 0 ==> (r.hasNextPage <==> page < CeilDiv(total, limit))
    ensures limit == 0 ==> r.totalPages.None? && (r.hasNextPage <==> total > 0)
    ensures r.skip == (page - 1) * limit
  {
    var totalPages := if limit > 0 then Some(CeilDiv(total, limit)) else None;
    var hasNext := if limit > 0 then page < CeilDiv(total, limit) else total > 0;
    PageInfo(page, totalPages, total, hasNext, page > 1, (page - 1) * limit)
  }

  /** There is a next page exactly when the orders shown so far are not all of them. */
  lemma HasNextMeansMoreOrders(total: nat, page: int, limit: nat)
    requires limit > 0
    ensures Pagination(total, page, limit).hasNextPage <==> page * limit < total
  {
    var t := CeilDiv(total, limit);
    if page < t {
      assert page <= t - 1;
      MulMono(page, t - 1, limit);
    } else {
      assert t <= page;
      MulMono(t, page, limit);
    }
  }

  lemma MulMono(a: int, b: int, c: nat)
    requires a <= b
    ensures a * c <= b * c
  {
  }

  /** Every page up to the last one starts inside the result set. */
  lemma PagesStartInside(total: nat, page: int, limit: nat)
    requires limit > 0 && 1 <= page <= CeilDiv(total, limit)
    ensures 0 <= Pagination(total, page, limit).skip < total
  {
    MulMono(page - 1, CeilDiv(total, limit) - 1, limit);
  }
}
