/** The per-shop stock ledger (`schema/ShopStock.js`): a list of stock lines
    keyed by (brand, type), an append-only history, and the figures the save
    hook derives from the lines (total value and alerts). */
module ShopStock {
  import opened Wrappers

  /** Status of a line's next scheduled restock. */
  datatype ArrivalStatus = Scheduled | Cancelled | Completed

  /** The embedded `nextArrival` record. Dates are milliseconds since the epoch;
      a missing date compares as 0, as JavaScript's `now >= null` does. */
  datatype NextArrival = NextArrival(
    arrivalDate: Option<int>,
    expectedQuantity: int,
    autoUpdateEnabled: bool,
    scheduledBy: Option<string>,
    scheduledAt: Option<int>,
    status: ArrivalStatus,
    notes: string)

  /** The schema defaults a line's `nextArrival` starts with (status defaults to scheduled). */
  const DefaultArrival := NextArrival(None, 0, false, None, None, Scheduled, "")

  /** One (brand, type) line of the ledger. */
  datatype StockLine = StockLine(
    brandName: string,
    gasType: string,
    gasSize: string,
    availableQuantity: int,
    reservedQuantity: int,
    minStockLevel: int,
    maxStockLevel: int,
    unitPrice: int,
    lastRestockDate: Option<int>,
    nextArrival: NextArrival,
    isAvailable: bool)

  /** One `stockHistory` entry. `action` is kept as the string that was pushed,
      because StockManager pushes actions outside the schema's list. */
  datatype HistoryEntry = HistoryEntry(
    action: string,
    brandName: string,
    gasType: string,
    quantity: int,
    previousQuantity: int,
    newQuantity: int,
    reason: string,
    performedBy: Option<string>,
    performedByRole: Option<string>,
    timestamp: int)

  datatype AlertType = LowStock | OutOfStock | Overstocked

  datatype Alert = Alert(gasType: string, brandName: string, alertType: AlertType)

  /** The five actions `updateStock` understands. */
  datatype StockAction = Restock | Sale | Adjustment | Return | Damage

  // ---------------------------------------------------------------------------
  // Lines and lookup

  predicate HasKey(l: StockLine, brandName: string, gasType: string) {
    l.brandName == brandName && l.gasType == gasType
  }

  /** No two lines share a (brand, type) key. */
  predicate UniqueKeys(lines: seq<StockLine>) {
    forall i, j :: 0 <= i < j < |lines| ==>
      !HasKey(lines[j], lines[i].brandName, lines[i].gasType)
  }

  /** Quantities and expected arrivals are never negative (the schema's `min: 0`). */
  predicate LineValid(l: StockLine) {
    l.availableQuantity >= 0 && l.reservedQuantity >= 0 && l.nextArrival.expectedQuantity >= 0
  }

  predicate LinesValid(lines: seq<StockLine>) {
    (forall i :: 0 <= i < |lines| ==> LineValid(lines[i])) && UniqueKeys(lines)
  }

  /** Replacing a line by one with the same key and valid counts keeps the lines valid. */
  lemma ReplaceLineValid(lines: seq<StockLine>, i: nat, l: StockLine)
    requires LinesValid(lines) && i < |lines| && LineValid(l)
    requires HasKey(l, lines[i].brandName, lines[i].gasType)
    ensures LinesValid(lines[i := l])
  {
    var m := lines[i := l];
    forall a, b | 0 <= a < b < |m| ensures !HasKey(m[b], m[a].brandName, m[a].gasType) {
      assert HasKey(m[a], lines[a].brandName, lines[a].gasType);
      assert HasKey(m[b], lines[b].brandName, lines[b].gasType);
    }
  }

  /** `gasStocks.findIndex(s => s.brandName === b && s.gasType === t)`, with `None` for -1. */
  function FindLine(lines: seq<StockLine>, brandName: string, gasType: string): (r: Option<nat>)
    ensures r.Some? ==> r.value < |lines| && HasKey(lines[r.value], brandName, gasType)
    ensures r.Some? ==> forall j :: 0 <= j < r.value ==> !HasKey(lines[j], brandName, gasType)
    ensures r.None? <==> forall j :: 0 <= j < |lines| ==> !HasKey(lines[j], brandName, gasType)
  {
    if lines == [] then None
    else if HasKey(lines[0], brandName, gasType) then Some(0)
    else match FindLine(lines[1..], brandName, gasType)
      case None => None
      case Some(k) => Some(k + 1)
  }

  /** With unique keys, the matching line is the only one with that key. */
  lemma FindLineUnique(lines: seq<StockLine>, i: nat)
    requires UniqueKeys(lines) && i < |lines|
    ensures FindLine(lines, lines[i].brandName, lines[i].gasType) == Some(i)
  {
  }

  function NotFoundMessage(brandName: string, gasType: string): string {
    "Stock not found for " + brandName + " " + gasType
  }

  // ---------------------------------------------------------------------------
  // What the save hook derives

  function LineValue(l: StockLine): int {
    l.availableQuantity * l.unitPrice
  }

  /** `gasStocks.reduce((t, s) => t + s.availableQuantity * s.unitPrice, 0)`. */
  function TotalValue(lines: seq<StockLine>): int {
    if lines == [] then 0 else TotalValue(lines[..|lines| - 1]) + LineValue(lines[|lines| - 1])
  }

  lemma {:induction false} TotalValueAppend(a: seq<StockLine>, b: seq<StockLine>)
    ensures TotalValue(a + b) == TotalValue(a) + TotalValue(b)
  {
    if b != [] {
      var b' := b[..|b| - 1];
      assert (a + b)[..|a + b| - 1] == a + b';
      TotalValueAppend(a, b');
    } else {
      assert a + b == a;
    }
  }

  /** Replacing one line changes the total by exactly that line's change in value. */
  lemma TotalValueUpdate(lines: seq<StockLine>, i: nat, l: StockLine)
    requires i < |lines|
    ensures TotalValue(lines[i := l]) == TotalValue(lines) - LineValue(lines[i]) + LineValue(l)
  {
    var pre, post := lines[..i], lines[i + 1..];
    assert lines == pre + [lines[i]] + post;
    assert lines[i := l] == pre + [l] + post;
    TotalValueAppend(pre + [lines[i]], post);
    TotalValueAppend(pre, [lines[i]]);
    TotalValueAppend(pre + [l], post);
    TotalValueAppend(pre, [l]);
    assert TotalValue([l]) == LineValue(l) by { assert [l][..0] == []; }
    assert TotalValue([lines[i]]) == LineValue(lines[i]) by { assert [lines[i]][..0] == []; }
  }

  /** The alert a line raises, in the hook's priority order: out of stock,
      then low stock (both only for lines offered for sale), then overstocked. */
  function AlertFor(l: StockLine): (r: Option<Alert>)
    ensures r.Some? ==> r.value.brandName == l.brandName && r.value.gasType == l.gasType
    ensures (r.Some? && r.value.alertType == OutOfStock) <==> l.availableQuantity == 0 && l.isAvailable
    ensures (r.Some? && r.value.alertType == LowStock) <==>
      l.isAvailable && l.availableQuantity != 0 && l.availableQuantity < l.minStockLevel
    ensures (r.Some? && r.value.alertType == Overstocked) <==>
      l.availableQuantity > l.maxStockLevel
      && !(l.isAvailable && (l.availableQuantity == 0 || l.availableQuantity < l.minStockLevel))
  {
    if l.availableQuantity == 0 && l.isAvailable then Some(Alert(l.gasType, l.brandName, OutOfStock))
    else if l.availableQuantity < l.minStockLevel && l.isAvailable then Some(Alert(l.gasType, l.brandName, LowStock))
    else if l.availableQuantity > l.maxStockLevel then Some(Alert(l.gasType, l.brandName, Overstocked))
    else None
  }

  function AlertList(l: StockLine): seq<Alert> {
    match AlertFor(l)
    case Some(a) => [a]
    case None => []
  }

  /** The alert list the hook rebuilds from empty: one pass over the lines in order. */
  function Alerts(lines: seq<StockLine>): seq<Alert> {
    if lines == [] then [] else Alerts(lines[..|lines| - 1]) + AlertList(lines[|lines| - 1])
  }

  /** Each line contributes at most one alert. */
  lemma {:induction false} AlertsAtMostOnePerLine(lines: seq<StockLine>)
    ensures |Alerts(lines)| <= |lines|
  {
    if lines != [] {
      AlertsAtMostOnePerLine(lines[..|lines| - 1]);
    }
  }

  /** Every line that meets an alert condition has its alert in the list, and
      every listed alert was raised by some line. */
  lemma {:induction false} AlertsComplete(lines: seq<StockLine>)
    ensures forall i :: 0 <= i < |lines| && AlertFor(lines[i]).Some? ==> AlertFor(lines[i]).value in Alerts(lines)
    ensures forall a :: a in Alerts(lines) ==> exists i :: 0 <= i < |lines| && AlertFor(lines[i]) == Some(a)
  {
    if lines != [] {
      var init := lines[..|lines| - 1];
      AlertsComplete(init);
      forall i | 0 <= i < |lines| && AlertFor(lines[i]).Some?
        ensures AlertFor(lines[i]).value in Alerts(lines)
      {
        if i < |init| { assert lines[i] == init[i]; }
      }
      forall a | a in Alerts(lines)
        ensures exists i :: 0 <= i < |lines| && AlertFor(lines[i]) == Some(a)
      {
        if a in Alerts(init) {
          var i :| 0 <= i < |init| && AlertFor(init[i]) == Some(a);
          assert lines[i] == init[i];
        } else {
          assert AlertFor(lines[|lines| - 1]) == Some(a);
        }
      }
    }
  }

  // ---------------------------------------------------------------------------
  // `updateStock` and the arrival state machine as functions on values

  function ActionOf(action: string): (r: Option<StockAction>)
    ensures r.Some? <==> action in {"restock", "sale", "adjustment", "return", "damage"}
  {
    if action == "restock" then Some(Restock)
    else if action == "sale" then Some(Sale)
    else if action == "adjustment" then Some(Adjustment)
    else if action == "return" then Some(Return)
    else if action == "damage" then Some(Damage)
    else None
  }

  /** The new available quantity `updateStock` computes from the old one, or its error. */
  function UpdatedQuantity(prev: int, quantity: int, action: string): (r: Result<int>)
    ensures r.Err? <==> ActionOf(action).None? || (action in {"sale", "damage"} && prev < quantity)
    ensures prev >= 0 && quantity >= 0 && r.Ok? ==> r.value >= 0
    ensures r.Ok? && action in {"restock", "return"} ==> r.value == prev + quantity
    ensures r.Ok? && action in {"sale", "damage"} ==> r.value == prev - quantity
    ensures r.Ok? && action == "adjustment" ==> r.value == quantity
  {
    match ActionOf(action)
    case None => Err("Invalid action")
    case Some(Restock) => Ok(prev + quantity)
    case Some(Return) => Ok(prev + quantity)
    case Some(Adjustment) => Ok(quantity)
    case Some(Sale) => if prev < quantity then Err("Insufficient stock") else Ok(prev - quantity)
    case Some(Damage) =>
      if prev < quantity then Err("Cannot report damage for more than available stock") else Ok(prev - quantity)
  }

  /** A sale followed by a return of the same quantity leaves the count where it was. */
  lemma SaleThenReturn(prev: int, quantity: int)
    requires prev >= quantity
    ensures UpdatedQuantity(prev, quantity, "sale").Ok?
    ensures UpdatedQuantity(UpdatedQuantity(prev, quantity, "sale").value, quantity, "return") == Ok(prev)
  {
  }

  /** An adjustment sets the count absolutely: adjusting twice is adjusting once. */
  lemma AdjustmentAbsolute(prev: int, q: int, q': int)
    ensures UpdatedQuantity(UpdatedQuantity(prev, q, "adjustment").value, q', "adjustment")
         == UpdatedQuantity(prev, q', "adjustment")
  {
  }

  function DateValue(d: Option<int>): int {
    match d
    case Some(t) => t
    case None => 0
  }

  /** `executeArrival` credits only a scheduled, auto-updating arrival whose date has come. */
  predicate ArrivalReady(a: NextArrival, now: int) {
    a.status == Scheduled && a.autoUpdateEnabled && now >= DateValue(a.arrivalDate)
  }

  /** The line after its arrival has been executed. */
  function ArrivedLine(l: StockLine, now: int): (r: StockLine)
    ensures r.availableQuantity == l.availableQuantity + l.nextArrival.expectedQuantity
    ensures r.nextArrival.status == Completed && !r.nextArrival.autoUpdateEnabled
    ensures r.reservedQuantity == l.reservedQuantity && HasKey(r, l.brandName, l.gasType)
    ensures LineValid(l) ==> LineValid(r)
  {
    l.(availableQuantity := l.availableQuantity + l.nextArrival.expectedQuantity,
       lastRestockDate := Some(now),
       nextArrival := l.nextArrival.(status := Completed, autoUpdateEnabled := false))
  }

  /** Executing an arrival is idempotent: once executed, a line is never ready
      again until it is rescheduled, so no later call can credit it twice. */
  lemma ArrivalExecutedOnce(l: StockLine, now: int, later: int)
    ensures !ArrivalReady(ArrivedLine(l, now).nextArrival, later)
  {
  }

  // ---------------------------------------------------------------------------
  // The ledger document

  class Ledger {
    var shopId: string
    var gasStocks: seq<StockLine>
    var totalValue: int
    var stockAlerts: seq<Alert>
    var stockHistory: seq<HistoryEntry>
    var lastUpdatedBy: Option<string>
    var updatedByRole: string

    /** The state every save leaves behind. */
    ghost predicate Valid()
      reads this
    {
      LinesValid(gasStocks) && totalValue == TotalValue(gasStocks) && stockAlerts == Alerts(gasStocks)
    }

    /** The shop the ledger belongs to and its last editor, as they were. */
    twostate predicate SameStamp()
      reads this
    {
      shopId == old(shopId) && lastUpdatedBy == old(lastUpdatedBy) && updatedByRole == old(updatedByRole)
    }

    /** `new ShopStock({shopId, gasStocks})` followed by its first save. */
    constructor (shopId: string, lines: seq<StockLine>)
      requires LinesValid(lines)
      ensures Valid()
      ensures this.shopId == shopId && gasStocks == lines && stockHistory == []
      ensures lastUpdatedBy == None && updatedByRole == "SalesAgent"
    {
      this.shopId := shopId;
      gasStocks := lines;
      stockHistory := [];
      lastUpdatedBy := None;
      updatedByRole := "SalesAgent";
      totalValue := 0;
      stockAlerts := [];
      new;
      Save();
    }

    /** The pre-save hook: recompute `totalValue` and rebuild `stockAlerts` from empty. */
    method Save()
      modifies this
      ensures totalValue == TotalValue(gasStocks) && stockAlerts == Alerts(gasStocks)
      ensures gasStocks == old(gasStocks) && stockHistory == old(stockHistory) && shopId == old(shopId)
      ensures lastUpdatedBy == old(lastUpdatedBy) && updatedByRole == old(updatedByRole)
    {
      var lines := gasStocks;
      var total := 0;
      var i := 0;
      while i < |lines|
        invariant 0 <= i <= |lines|
        invariant total == TotalValue(lines[..i])
      {
        assert lines[..i + 1][..i] == lines[..i];
        total := total + LineValue(lines[i]);
        i := i + 1;
      }
      assert lines[..|lines|] == lines;
      totalValue := total;

      var alerts: seq<Alert> := [];
      i := 0;
      while i < |lines|
        invariant 0 <= i <= |lines|
        invariant alerts == Alerts(lines[..i])
      {
        assert lines[..i + 1][..i] == lines[..i];
        match AlertFor(lines[i]) {
          case Some(a) => alerts := alerts + [a];
          case None =>
        }
        i := i + 1;
      }
      stockAlerts := alerts;
    }

    /** Writes back line `i` with its key unchanged and saves. */
    method PutLine(i: nat, l: StockLine)
      requires Valid() && i < |gasStocks| && LineValid(l)
      requires HasKey(l, gasStocks[i].brandName, gasStocks[i].gasType)
      modifies this
      ensures Valid() && gasStocks == old(gasStocks)[i := l]
      ensures stockHistory == old(stockHistory) && shopId == old(shopId)
      ensures lastUpdatedBy == old(lastUpdatedBy) && updatedByRole == old(updatedByRole)
    {
      ReplaceLineValid(gasStocks, i, l);
      gasStocks := gasStocks[i := l];
      Save();
    }

    /** `getAvailableStock`: the unreserved part of the first matching line, or 0. */
    function GetAvailableStock(brandName: string, gasType: string): (n: int)
      reads this
      ensures FindLine(gasStocks, brandName, gasType).None? ==> n == 0
      ensures FindLine(gasStocks, brandName, gasType).Some? ==>
        var l := gasStocks[FindLine(gasStocks, brandName, gasType).value];
        n + l.reservedQuantity == l.availableQuantity
    {
      match FindLine(gasStocks, brandName, gasType)
      case None => 0
      case Some(i) => gasStocks[i].availableQuantity - gasStocks[i].reservedQuantity
    }

    /** `updateStock`: apply one action to one line, log it, and save. A missing
        line, an unknown action or too little stock fails before anything changes. */
    method UpdateStock(brandName: string, gasType: string, quantity: nat, action: string,
                       userId: string, userRole: string, reason: string, now: int)
      returns (r: Outcome)
      requires Valid()
      modifies this
      ensures Valid() && shopId == old(shopId)
      ensures FindLine(old(gasStocks), brandName, gasType).None? ==>
        r == Fail(NotFoundMessage(brandName, gasType)) && gasStocks == old(gasStocks) && stockHistory == old(stockHistory)
        && lastUpdatedBy == old(lastUpdatedBy) && updatedByRole == old(updatedByRole)
      ensures FindLine(old(gasStocks), brandName, gasType).Some? ==>
        var i := FindLine(old(gasStocks), brandName, gasType).value;
        var l := old(gasStocks)[i];
        match UpdatedQuantity(l.availableQuantity, quantity, action)
        case Err(msg) =>
          r == Fail(msg) && gasStocks == old(gasStocks) && stockHistory == old(stockHistory)
          && lastUpdatedBy == old(lastUpdatedBy) && updatedByRole == old(updatedByRole)
        case Ok(q) =>
          && r == Pass
          && gasStocks == old(gasStocks)[i := l.(availableQuantity := q,
                                                 lastRestockDate := if action == "restock" then Some(now) else l.lastRestockDate)]
          && stockHistory == old(stockHistory) + [HistoryEntry(action, brandName, gasType, quantity,
                                                                l.availableQuantity, q, reason,
                                                                Some(userId), Some(userRole), now)]
          && lastUpdatedBy == Some(userId) && updatedByRole == userRole
    {
      var k := FindLine(gasStocks, brandName, gasType);
      if k.None? {
        return Fail(NotFoundMessage(brandName, gasType));
      }
      var i := k.value;
      var l := gasStocks[i];
      var updated := UpdatedQuantity(l.availableQuantity, quantity, action);
      if updated.Err? {
        return Fail(updated.message);
      }
      var q := updated.value;
      var restockDate := if action == "restock" then Some(now) else l.lastRestockDate;
      gasStocks := gasStocks[i := l.(availableQuantity := q, lastRestockDate := restockDate)];
      stockHistory := stockHistory + [HistoryEntry(action, brandName, gasType, quantity,
                                                   l.availableQuantity, q, reason,
                                                   Some(userId), Some(userRole), now)];
      lastUpdatedBy := Some(userId);
      updatedByRole := userRole;
      Save();
      r := Pass;
    }

    /** `reserveStock` of the schema: raises only `reservedQuantity`, and only
        when the unreserved part of the line covers the request. */
    method ReserveStock(brandName: string, gasType: string, quantity: nat) returns (r: Outcome)
      requires Valid()
      modifies this
      ensures Valid() && stockHistory == old(stockHistory) && SameStamp()
      ensures FindLine(old(gasStocks), brandName, gasType).None? ==>
        r == Fail(NotFoundMessage(brandName, gasType)) && gasStocks == old(gasStocks)
      ensures FindLine(old(gasStocks), brandName, gasType).Some? ==>
        var i := FindLine(old(gasStocks), brandName, gasType).value;
        var l := old(gasStocks)[i];
        if l.availableQuantity - l.reservedQuantity < quantity then
          r == Fail("Insufficient available stock") && gasStocks == old(gasStocks)
        else
          r == Pass && gasStocks == old(gasStocks)[i := l.(reservedQuantity := l.reservedQuantity + quantity)]
    {
      var k := FindLine(gasStocks, brandName, gasType);
      if k.None? {
        return Fail(NotFoundMessage(brandName, gasType));
      }
      if GetAvailableStock(brandName, gasType) < quantity {
        return Fail("Insufficient available stock");
      }
      var i := k.value;
      var l := gasStocks[i];
      PutLine(i, l.(reservedQuantity := l.reservedQuantity + quantity));
      r := Pass;
    }

    /** `releaseReservation`: lowers `reservedQuantity` by the request, stopping at 0. */
    method ReleaseReservation(brandName: string, gasType: string, quantity: nat) returns (r: Outcome)
      requires Valid()
      modifies this
      ensures Valid() && stockHistory == old(stockHistory) && SameStamp()
      ensures FindLine(old(gasStocks), brandName, gasType).None? ==>
        r == Fail(NotFoundMessage(brandName, gasType)) && gasStocks == old(gasStocks)
      ensures FindLine(old(gasStocks), brandName, gasType).Some? ==>
        var i := FindLine(old(gasStocks), brandName, gasType).value;
        var l := old(gasStocks)[i];
        var left := if l.reservedQuantity - quantity > 0 then l.reservedQuantity - quantity else 0;
        r == Pass && gasStocks == old(gasStocks)[i := l.(reservedQuantity := left)]
    {
      var k := FindLine(gasStocks, brandName, gasType);
      if k.None? {
        return Fail(NotFoundMessage(brandName, gasType));
      }
      var i := k.value;
      var l := gasStocks[i];
      var left := if l.reservedQuantity - quantity > 0 then l.reservedQuantity - quantity else 0;
      PutLine(i, l.(reservedQuantity := left));
      r := Pass;
    }

    /** `scheduleNextArrival`: overwrites the line's arrival with a fresh scheduled one. */
    method ScheduleNextArrival(brandName: string, gasType: string, arrivalDate: Option<int>,
                               expectedQuantity: nat, userId: string, notes: string, now: int)
      returns (r: Outcome)
      requires Valid()
      modifies this
      ensures Valid() && stockHistory == old(stockHistory) && SameStamp()
      ensures FindLine(old(gasStocks), brandName, gasType).None? ==>
        r == Fail(NotFoundMessage(brandName, gasType)) && gasStocks == old(gasStocks)
      ensures FindLine(old(gasStocks), brandName, gasType).Some? ==>
        var i := FindLine(old(gasStocks), brandName, gasType).value;
        var l := old(gasStocks)[i];
        r == Pass && gasStocks == old(gasStocks)[i := l.(nextArrival :=
          NextArrival(arrivalDate, expectedQuantity, true, Some(userId), Some(now), Scheduled, notes))]
    {
      var k := FindLine(gasStocks, brandName, gasType);
      if k.None? {
        return Fail(NotFoundMessage(brandName, gasType));
      }
      var i := k.value;
      var l := gasStocks[i];
      PutLine(i, l.(nextArrival :=
        NextArrival(arrivalDate, expectedQuantity, true, Some(userId), Some(now), Scheduled, notes)));
      r := Pass;
    }

    /** `cancelNextArrival`: only a scheduled arrival changes, to cancelled with
        auto-update off, logged as a zero-quantity adjustment. */
    method CancelNextArrival(brandName: string, gasType: string, userId: string, now: int)
      returns (r: Outcome)
      requires Valid()
      modifies this
      ensures Valid() && SameStamp()
      ensures FindLine(old(gasStocks), brandName, gasType).None? ==>
        r == Fail(NotFoundMessage(brandName, gasType)) && gasStocks == old(gasStocks)
        && stockHistory == old(stockHistory)
      ensures FindLine(old(gasStocks), brandName, gasType).Some? ==>
        var i := FindLine(old(gasStocks), brandName, gasType).value;
        var l := old(gasStocks)[i];
        r == Pass &&
        if l.nextArrival.status == Scheduled then
          && gasStocks == old(gasStocks)[i := l.(nextArrival := l.nextArrival.(status := Cancelled, autoUpdateEnabled := false))]
          && stockHistory == old(stockHistory) + [HistoryEntry("adjustment", brandName, gasType, 0,
                               l.availableQuantity, l.availableQuantity, "Next arrival cancelled",
                               Some(userId), Some("SalesAgent"), now)]
        else
          gasStocks == old(gasStocks) && stockHistory == old(stockHistory)
    {
      var k := FindLine(gasStocks, brandName, gasType);
      if k.None? {
        return Fail(NotFoundMessage(brandName, gasType));
      }
      var i := k.value;
      var l := gasStocks[i];
      if l.nextArrival.status == Scheduled {
        gasStocks := gasStocks[i := l.(nextArrival := l.nextArrival.(status := Cancelled, autoUpdateEnabled := false))];
        stockHistory := stockHistory + [HistoryEntry("adjustment", brandName, gasType, 0,
                                         l.availableQuantity, l.availableQuantity, "Next arrival cancelled",
                                         Some(userId), Some("SalesAgent"), now)];
      }
      Save();
      r := Pass;
    }

    /** `executeArrival`: credits a ready arrival once, marks it completed and
        logs a restock; in every other case it returns false and changes nothing. */
    method ExecuteArrival(brandName: string, gasType: string, now: int) returns (executed: bool)
      requires Valid()
      modifies this
      ensures Valid() && SameStamp()
      ensures var k := FindLine(old(gasStocks), brandName, gasType);
        executed <==> k.Some? && ArrivalReady(old(gasStocks)[k.value].nextArrival, now)
      ensures !executed ==> gasStocks == old(gasStocks) && stockHistory == old(stockHistory)
      ensures executed ==>
        var i := FindLine(old(gasStocks), brandName, gasType).value;
        var l := old(gasStocks)[i];
        && gasStocks == old(gasStocks)[i := ArrivedLine(l, now)]
        && stockHistory == old(stockHistory) + [ArrivalEntry(l, now)]
    {
      var k := FindLine(gasStocks, brandName, gasType);
      if k.None? || gasStocks[k.value].nextArrival.status != Scheduled {
        return false;
      }
      var i := k.value;
      var l := gasStocks[i];
      if l.nextArrival.autoUpdateEnabled && now >= DateValue(l.nextArrival.arrivalDate) {
        gasStocks := gasStocks[i := ArrivedLine(l, now)];
        stockHistory := stockHistory + [ArrivalEntry(l, now)];
        Save();
        return true;
      }
      return false;
    }
  }

  /** The restock entry `executeArrival` logs for a line. */
  function ArrivalEntry(l: StockLine, now: int): (e: HistoryEntry)
    ensures e.action == "restock" && e.quantity == l.nextArrival.expectedQuantity
    ensures e.newQuantity - e.previousQuantity == e.quantity
  {
    HistoryEntry("restock", l.brandName, l.gasType, l.nextArrival.expectedQuantity,
                 l.availableQuantity, l.availableQuantity + l.nextArrival.expectedQuantity,
                 "Automated arrival restock - " + l.nextArrival.notes,
                 l.nextArrival.scheduledBy, Some("SalesAgent"), now)
  }
}
