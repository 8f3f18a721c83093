/** The order document (`schema/Order.js`): its enumerations and defaults, and
    the pre-save hook that logs every status change in `statusHistory`. */
module OrderSchema {
  import opened Wrappers

  /** `orderStatus`: seven values, default Pending. */
  datatype OrderStatus = Pending | Confirmed | Processing | OutForDelivery | Delivered | Cancelled | Returned

  /** `paymentInfo.paymentMethod`: default cash on delivery. */
  datatype PaymentMethod = CashOnDelivery | OnlinePayment | BankTransfer

  /** `paymentInfo.paymentStatus`: default Pending. */
  datatype PaymentStatus = PaymentPending | Paid | PaymentFailed | Refunded

  const DefaultOrderStatus := Pending
  const DefaultPaymentMethod := CashOnDelivery
  const DefaultPaymentStatus := PaymentPending
  const DefaultQuantity: nat := 1
  const DefaultRefundAmount := 0

  /** The string each status is stored as. */
  function StatusName(s: OrderStatus): string {
    match s
    case Pending => "Pending"
    case Confirmed => "Confirmed"
    case Processing => "Processing"
    case OutForDelivery => "Out for Delivery"
    case Delivered => "Delivered"
    case Cancelled => "Cancelled"
    case Returned => "Returned"
  }

  /** Reading a stored status string; anything outside the enumeration is refused. */
  function ParseStatus(name: string): (r: Option<OrderStatus>)
    ensures r.Some? ==> StatusName(r.value) == name
  {
    if name == "Pending" then Some(Pending)
    else if name == "Confirmed" then Some(Confirmed)
    else if name == "Processing" then Some(Processing)
    else if name == "Out for Delivery" then Some(OutForDelivery)
    else if name == "Delivered" then Some(Delivered)
    else if name == "Cancelled" then Some(Cancelled)
    else if name == "Returned" then Some(Returned)
    else None
  }

  /** Every status reads back from its stored name. */
  lemma ParseStatusName(s: OrderStatus)
    ensures ParseStatus(StatusName(s)) == Some(s)
  {
    match s
    case Pending =>
    case Confirmed => assert "Confirmed"[0] != "Pending"[0];
    case Processing =>
      assert "Processing"[0] != "Confirmed"[0] && |"Processing"| != |"Pending"|;
    case OutForDelivery =>
      assert "Out for Delivery"[0] !in {'P', 'C'};
    case Delivered =>
      assert "Delivered"[0] !in {'P', 'C', 'O'};
    case Cancelled =>
      assert "Cancelled"[0] !in {'P', 'O', 'D'} && "Cancelled"[1] != "Confirmed"[1];
    case Returned =>
      assert "Returned"[0] !in {'P', 'C', 'O', 'D'};
  }

  /** `orderDetails`; the quantity defaults to 1 when absent. */
  datatype OrderDetails = OrderDetails(gasType: string, gasBrand: string, quantity: nat, unitPrice: int, totalPrice: int)

  datatype PaymentInfo = PaymentInfo(paymentMethod: PaymentMethod, paymentStatus: PaymentStatus, transactionId: Option<string>)

  /** `customerRating`: unset until the customer rates a delivered order. */
  datatype CustomerRating = CustomerRating(rating: Option<int>, review: Option<string>, ratedAt: Option<int>)

  const NoRating := CustomerRating(None, None, None)

  datatype StatusEntry = StatusEntry(status: OrderStatus, timestamp: int, updatedBy: string, notes: string)

  /** The entry the hook pushes for a status. */
  function HookEntry(status: OrderStatus, now: int): (e: StatusEntry)
    ensures e.status == status && e.updatedBy == "system" && e.timestamp == now
  {
    StatusEntry(status, now, "system", "Order status updated to " + StatusName(status))
  }

  /** The history after a save: one entry for the current status when it
      differs from the status last saved (a new document has none). */
  function HistoryAfterSave(history: seq<StatusEntry>, saved: Option<OrderStatus>, status: OrderStatus, now: int)
    : (r: seq<StatusEntry>)
    ensures saved == Some(status) ==> r == history
    ensures saved != Some(status) ==> |r| == |history| + 1 && r[|history|] == HookEntry(status, now)
    ensures r[..|history|] == history
  {
    if saved != Some(status) then history + [HookEntry(status, now)] else history
  }

  /** Saving again without a status change adds nothing more. */
  lemma SaveTwiceLogsOnce(history: seq<StatusEntry>, saved: Option<OrderStatus>, status: OrderStatus, now: int, later: int)
    ensures HistoryAfterSave(HistoryAfterSave(history, saved, status, now), Some(status), status, later)
         == HistoryAfterSave(history, saved, status, now)
  {
  }

  /** Two saves with two changes log both, in order. */
  lemma SaveLogsEachChange(history: seq<StatusEntry>, s1: OrderStatus, s2: OrderStatus, t1: int, t2: int)
    requires s1 != s2
    ensures var h := HistoryAfterSave(HistoryAfterSave(history, None, s1, t1), Some(s1), s2, t2);
      |h| == |history| + 2 && h[|history|].status == s1 && h[|history| + 1].status == s2
  {
  }

  class Order {
    var customerId: string
    var shopId: Option<string>
    var gasStockId: Option<string>
    var orderDetails: OrderDetails
    var paymentInfo: PaymentInfo
    var orderStatus: OrderStatus
    var statusHistory: seq<StatusEntry>
    var customerRating: CustomerRating
    var cancellationReason: Option<string>
    var refundAmount: int
    /** The status as last saved, which is what `isModified('orderStatus')` compares against. */
    var savedStatus: Option<OrderStatus>

    /** `new Order({...})` with an explicit status, before its first save. */
    constructor (customerId: string, shopId: Option<string>, gasStockId: Option<string>,
                 orderDetails: OrderDetails, paymentInfo: PaymentInfo, orderStatus: OrderStatus)
      ensures this.customerId == customerId && this.shopId == shopId && this.gasStockId == gasStockId
      ensures this.orderDetails == orderDetails && this.paymentInfo == paymentInfo
      ensures this.orderStatus == orderStatus && statusHistory == [] && savedStatus == None
      ensures customerRating == NoRating && cancellationReason == None && refundAmount == DefaultRefundAmount
    {
      this.customerId := customerId;
      this.shopId := shopId;
      this.gasStockId := gasStockId;
      this.orderDetails := orderDetails;
      this.paymentInfo := paymentInfo;
      this.orderStatus := orderStatus;
      statusHistory := [];
      customerRating := NoRating;
      cancellationReason := None;
      refundAmount := DefaultRefundAmount;
      savedStatus := None;
    }

    /** `save()` with its pre-save hook: push one entry when the status changed. */
    method Save(now: int)
      modifies this
      ensures statusHistory == HistoryAfterSave(old(statusHistory), old(savedStatus), orderStatus, now)
      ensures savedStatus == Some(orderStatus)
      ensures orderStatus == old(orderStatus) && customerId == old(customerId)
      ensures shopId == old(shopId) && gasStockId == old(gasStockId)
      ensures orderDetails == old(orderDetails) && paymentInfo == old(paymentInfo)
      ensures customerRating == old(customerRating) && cancellationReason == old(cancellationReason)
      ensures refundAmount == old(refundAmount)
    {
      if savedStatus != Some(orderStatus) {
        statusHistory := statusHistory + [StatusEntry(orderStatus, now, "system",
                                                      "Order status updated to " + StatusName(orderStatus))];
      }
      savedStatus := Some(orderStatus);
    }
  }
}
