/** The stock service (`services/StockManager.js`): gas-type normalisation, the
    three-stage line lookup, and reserve / deduct / restore / availability
    checks over either a per-shop ledger or a legacy per-product counter. */
module StockManager {
  import opened Wrappers
  import opened Text
  import opened ShopStock

  /** What the service reads out of an order: `{gasBrand, gasType, quantity}`. */
  datatype StockRequest = StockRequest(gasBrand: string, gasType: string, quantity: nat)

  /** What reserve, deduct and restore return. `Absent` is JavaScript's
      `undefined`, returned when the caller gives neither a shop id nor a
      legacy stock id. */
  datatype StockResult =
    | Succeeded(message: string, availableQuantity: Option<int>, reservedQuantity: Option<int>)
    | Failed(message: string)
    | Absent

  /** The legacy single-product counter (`schema/GasStock.js`). It has no
      lower bound on its quantity. */
  class GasStock {
    var gasCenterName: string
    var gasBrand: string
    var gasType: string
    var gasAvailableQty: int

    /** The product the record describes, as it was. */
    twostate predicate SameProduct()
      reads this
    {
      gasCenterName == old(gasCenterName) && gasBrand == old(gasBrand) && gasType == old(gasType)
    }

    constructor (gasCenterName: string, gasBrand: string, gasType: string, gasAvailableQty: int)
      ensures this.gasCenterName == gasCenterName && this.gasBrand == gasBrand
      ensures this.gasType == gasType && this.gasAvailableQty == gasAvailableQty
    {
      this.gasCenterName := gasCenterName;
      this.gasBrand := gasBrand;
      this.gasType := gasType;
      this.gasAvailableQty := gasAvailableQty;
    }
  }

  // ---------------------------------------------------------------------------
  // Gas-type normalisation

  /** `gasType.toString().toLowerCase().trim()`. */
  function Normalize(gasType: string): string {
    Trim(ToLower(gasType))
  }

  predicate SmallName(n: string) { n in {"2.3kg", "2.3", "small"} }
  predicate MediumName(n: string) { n in {"5kg", "5", "medium"} }
  predicate LargeName(n: string) { n in {"12.5kg", "12.5", "large"} }

  /** `convertGasType`: any spelling of a cylinder size becomes its size name;
      anything else comes back exactly as given. */
  function ConvertGasType(gasType: string): (r: string)
    ensures SmallName(Normalize(gasType)) ==> r == "Small"
    ensures MediumName(Normalize(gasType)) ==> r == "Medium"
    ensures LargeName(Normalize(gasType)) ==> r == "Large"
    ensures r == "Small" || r == "Medium" || r == "Large" || r == gasType
  {
    var n := Normalize(gasType);
    SizeNamesDisjoint(n);
    if SmallName(n) then "Small"
    else if MediumName(n) then "Medium"
    else if LargeName(n) then "Large"
    else gasType
  }

  /** The three spelling lists share no entry: their first characters differ. */
  lemma SizeNamesDisjoint(n: string)
    ensures SmallName(n) ==> n != [] && (n[0] == '2' || n[0] == 's')
    ensures MediumName(n) ==> n != [] && (n[0] == '5' || n[0] == 'm')
    ensures LargeName(n) ==> n != [] && (n[0] == '1' || n[0] == 'l')
  {
    assert "2.3kg"[0] == '2' && "2.3"[0] == '2' && "small"[0] == 's';
    assert "5kg"[0] == '5' && "5"[0] == '5' && "medium"[0] == 'm';
    assert "12.5kg"[0] == '1' && "12.5"[0] == '1' && "large"[0] == 'l';
  }

  lemma SizeNamesDistinct()
    ensures "Small" != "Medium" && "Small" != "Large" && "Medium" != "Large"
  {
    assert "Small"[0] == 'S' && "Medium"[0] == 'M' && "Large"[0] == 'L';
  }

  lemma SizeNamesNormalize()
    ensures Normalize("Small") == "small"
    ensures Normalize("Medium") == "medium"
    ensures Normalize("Large") == "large"
  {
    NormalizeSmall();
    NormalizeMedium();
    NormalizeLarge();
  }

  lemma NormalizeSmall()
    ensures Normalize("Small") == "small"
  {
    LowerTo("Small", "small");
    TrimWord("small");
  }

  lemma NormalizeMedium()
    ensures Normalize("Medium") == "medium"
  {
    LowerTo("Medium", "medium");
    TrimWord("medium");
  }

  lemma NormalizeLarge()
    ensures Normalize("Large") == "large"
  {
    LowerTo("Large", "large");
    TrimWord("large");
  }

  lemma LowerTo(s: string, t: string)
    requires |s| == |t| && forall i :: 0 <= i < |s| ==> LowerChar(s[i]) == t[i]
    ensures ToLower(s) == t
  {
  }

  lemma TrimWord(s: string)
    requires s != [] && !IsSpace(s[0]) && !IsSpace(s[|s| - 1])
    ensures Trim(s) == s
  {
  }

  /** The size names are their own spellings. */
  lemma SizeNamesFixed()
    ensures ConvertGasType("Small") == "Small"
    ensures ConvertGasType("Medium") == "Medium"
    ensures ConvertGasType("Large") == "Large"
  {
    SmallFixed();
    MediumFixed();
    LargeFixed();
  }

  lemma SmallFixed()
    ensures ConvertGasType("Small") == "Small"
  {
    assert SmallName(Normalize("Small")) by { SizeNamesNormalize(); }
  }

  lemma MediumFixed()
    ensures ConvertGasType("Medium") == "Medium"
  {
    assert MediumName(Normalize("Medium")) by { SizeNamesNormalize(); }
  }

  lemma LargeFixed()
    ensures ConvertGasType("Large") == "Large"
  {
    assert LargeName(Normalize("Large")) by { SizeNamesNormalize(); }
  }

  /** Converting an already converted type changes nothing. */
  lemma ConvertGasTypeIdempotent(gasType: string)
    ensures ConvertGasType(ConvertGasType(gasType)) == ConvertGasType(gasType)
  {
    var n := Normalize(gasType);
    SizeNamesDisjoint(n);
    SizeNamesFixed();
    if SmallName(n) {
      assert ConvertGasType(gasType) == "Small";
    } else if MediumName(n) {
      assert ConvertGasType(gasType) == "Medium";
    } else if LargeName(n) {
      assert ConvertGasType(gasType) == "Large";
    } else {
      assert ConvertGasType(gasType) == gasType;
    }
  }

  /** A size name comes back only for a spelling of that size. */
  lemma ConvertGasTypeExact(gasType: string)
    ensures ConvertGasType(gasType) == "Small" <==> SmallName(Normalize(gasType))
    ensures ConvertGasType(gasType) == "Medium" <==> MediumName(Normalize(gasType))
    ensures ConvertGasType(gasType) == "Large" <==> LargeName(Normalize(gasType))
  {
    var n := Normalize(gasType);
    SizeNamesDisjoint(n);
    SizeNamesDistinct();
    if !SmallName(n) && !MediumName(n) && !LargeName(n) {
      assert ConvertGasType(gasType) == gasType;
      SizeNamesNormalize();
      assert gasType != "Small" && gasType != "Medium" && gasType != "Large";
    }
  }

  // ---------------------------------------------------------------------------
  // The three-stage lookup

  /** The case-insensitive comparison of the lookup's last stage. */
  predicate LooseMatch(l: StockLine, gasBrand: string, gasType: string) {
    ToLower(l.brandName) == ToLower(gasBrand) && ToLower(l.gasType) == ToLower(gasType)
  }

  function FindLoose(lines: seq<StockLine>, gasBrand: string, gasType: string): (r: Option<nat>)
    ensures r.Some? ==> r.value < |lines| && LooseMatch(lines[r.value], gasBrand, gasType)
    ensures r.Some? ==> forall j :: 0 <= j < r.value ==> !LooseMatch(lines[j], gasBrand, gasType)
    ensures r.None? <==> forall j :: 0 <= j < |lines| ==> !LooseMatch(lines[j], gasBrand, gasType)
  {
    if lines == [] then None
    else if LooseMatch(lines[0], gasBrand, gasType) then Some(0)
    else match FindLoose(lines[1..], gasBrand, gasType)
      case None => None
      case Some(k) => Some(k + 1)
  }

  /** `findGasStock`: an exact (brand, type) match, else an exact match on the
      converted type, else a case-insensitive match on brand and converted type. */
  function FindGasStock(lines: seq<StockLine>, gasBrand: string, gasType: string): (r: Option<nat>)
    ensures r.Some? ==> r.value < |lines|
    ensures FindLine(lines, gasBrand, gasType).Some? ==> r == FindLine(lines, gasBrand, gasType)
    ensures r.Some? ==> HasKey(lines[r.value], gasBrand, gasType)
                        || LooseMatch(lines[r.value], gasBrand, ConvertGasType(gasType))
    // the exact key on the converted type comes next, the loose match last
    ensures FindLine(lines, gasBrand, gasType).None? && FindLine(lines, gasBrand, ConvertGasType(gasType)).Some? ==>
      r == FindLine(lines, gasBrand, ConvertGasType(gasType))
    ensures FindLine(lines, gasBrand, gasType).None? && FindLine(lines, gasBrand, ConvertGasType(gasType)).None? ==>
      r == FindLoose(lines, gasBrand, ConvertGasType(gasType))
    ensures r.None? <==> forall j :: 0 <= j < |lines| ==>
      !HasKey(lines[j], gasBrand, gasType) && !LooseMatch(lines[j], gasBrand, ConvertGasType(gasType))
  {
    FindStaged(lines, gasBrand, gasType, ConvertGasType(gasType))
  }

  /** The three stages, for a given converted type. */
  function FindStaged(lines: seq<StockLine>, gasBrand: string, gasType: string, converted: string): (r: Option<nat>)
    ensures r.Some? ==> r.value < |lines|
    ensures FindLine(lines, gasBrand, gasType).Some? ==> r == FindLine(lines, gasBrand, gasType)
    ensures r.Some? ==> HasKey(lines[r.value], gasBrand, gasType) || LooseMatch(lines[r.value], gasBrand, converted)
    ensures FindLine(lines, gasBrand, gasType).None? && FindLine(lines, gasBrand, converted).Some? ==>
      r == FindLine(lines, gasBrand, converted)
    ensures FindLine(lines, gasBrand, gasType).None? && FindLine(lines, gasBrand, converted).None? ==>
      r == FindLoose(lines, gasBrand, converted)
    ensures r.None? <==> forall j :: 0 <= j < |lines| ==>
      !HasKey(lines[j], gasBrand, gasType) && !LooseMatch(lines[j], gasBrand, converted)
  {
    match FindLine(lines, gasBrand, gasType)
    case Some(k) => Some(k)
    case None =>
      match FindLine(lines, gasBrand, converted)
      case Some(k) => Some(k)
      case None => FindLoose(lines, gasBrand, converted)
  }

  /** When no line carries the requested type verbatim, looking up the
      converted type finds the same line as looking up the type itself. */
  lemma FindConvertedSameLine(lines: seq<StockLine>, gasBrand: string, gasType: string)
    requires FindLine(lines, gasBrand, gasType).None?
    ensures FindGasStock(lines, gasBrand, ConvertGasType(gasType)) == FindGasStock(lines, gasBrand, gasType)
  {
    ConvertGasTypeIdempotent(gasType);
  }

  // ---------------------------------------------------------------------------
  // Failure messages

  /** `gasStocks.filter(s => s.brandName === b).map(s => s.gasType)`. */
  function TypesOfBrand(lines: seq<StockLine>, gasBrand: string): (r: seq<string>)
    ensures forall t :: t in r <==> exists j :: 0 <= j < |lines| && HasKey(lines[j], gasBrand, t)
  {
    if lines == [] then []
    else
      var rest := TypesOfBrand(lines[1..], gasBrand);
      TypesOfBrandTail(lines, gasBrand, rest);
      if lines[0].brandName == gasBrand then [lines[0].gasType] + rest else rest
  }

  lemma TypesOfBrandTail(lines: seq<StockLine>, gasBrand: string, rest: seq<string>)
    requires lines != []
    requires forall t :: t in rest <==> exists j :: 0 <= j < |lines| - 1 && HasKey(lines[1..][j], gasBrand, t)
    ensures forall t :: t in rest <==> exists j :: 1 <= j < |lines| && HasKey(lines[j], gasBrand, t)
  {
    forall t | t in rest ensures exists j :: 1 <= j < |lines| && HasKey(lines[j], gasBrand, t) {
      var j :| 0 <= j < |lines| - 1 && HasKey(lines[1..][j], gasBrand, t);
      assert HasKey(lines[j + 1], gasBrand, t);
    }
    forall t, j | 1 <= j < |lines| && HasKey(lines[j], gasBrand, t) ensures t in rest {
      assert HasKey(lines[1..][j - 1], gasBrand, t);
    }
  }

  /** `xs.join(sep)`. */
  function Join(xs: seq<string>, sep: string): (r: string)
    ensures xs == [] ==> r == []
    ensures |xs| == 1 ==> r == xs[0]
  {
    if xs == [] then [] else if |xs| == 1 then xs[0] else xs[0] + sep + Join(xs[1..], sep)
  }

  /** The message for a request no line matches; it lists the brand's types, or "none". */
  function MissingLineMessage(lines: seq<StockLine>, gasBrand: string, gasType: string): string {
    var types := Join(TypesOfBrand(lines, gasBrand), ", ");
    "Gas stock not found for " + gasBrand + " " + gasType + ". Available types: "
      + (if types == [] then "none" else types)
  }

  function InsufficientMessage(available: int, requested: int): string {
    "Insufficient stock. Available: " + IntToString(available) + ", Requested: " + IntToString(requested)
  }

  // ---------------------------------------------------------------------------
  // What each operation does to one line

  /** `m` is `l` with at most its two counts changed. */
  predicate SameLineExceptCounts(l: StockLine, m: StockLine) {
    m == l.(availableQuantity := m.availableQuantity, reservedQuantity := m.reservedQuantity)
  }

  /** Reservation moves the quantity from available to reserved, if enough is available. */
  function ReservedLine(l: StockLine, quantity: nat): (r: Result<StockLine>)
    ensures r.Err? <==> l.availableQuantity < quantity
    ensures r.Err? ==> r.message == InsufficientMessage(l.availableQuantity, quantity)
    ensures r.Ok? ==> SameLineExceptCounts(l, r.value)
                      && r.value.availableQuantity == l.availableQuantity - quantity
                      && r.value.reservedQuantity == l.reservedQuantity + quantity
  {
    if l.availableQuantity < quantity then Err(InsufficientMessage(l.availableQuantity, quantity))
    else Ok(l.(availableQuantity := l.availableQuantity - quantity,
               reservedQuantity := l.reservedQuantity + quantity))
  }

  /** Deduction takes from the reservation when it covers the quantity (a paid
      order), and otherwise from the available count (cash on delivery). */
  function DeductedLine(l: StockLine, quantity: nat): (r: Result<StockLine>)
    ensures r.Err? <==> l.reservedQuantity < quantity && l.availableQuantity < quantity
    ensures r.Err? ==> r.message == InsufficientMessage(l.availableQuantity, quantity)
    ensures r.Ok? ==> SameLineExceptCounts(l, r.value)
    ensures r.Ok? && l.reservedQuantity >= quantity ==>
      r.value.reservedQuantity == l.reservedQuantity - quantity && r.value.availableQuantity == l.availableQuantity
    ensures r.Ok? && l.reservedQuantity < quantity ==>
      r.value.availableQuantity == l.availableQuantity - quantity && r.value.reservedQuantity == l.reservedQuantity
  {
    if l.reservedQuantity >= quantity then Ok(l.(reservedQuantity := l.reservedQuantity - quantity))
    else if l.availableQuantity < quantity then Err(InsufficientMessage(l.availableQuantity, quantity))
    else Ok(l.(availableQuantity := l.availableQuantity - quantity))
  }

  /** Restoration always credits the available count, and releases the
      reservation only when it covers the whole quantity. */
  function RestoredLine(l: StockLine, quantity: nat): (r: StockLine)
    ensures SameLineExceptCounts(l, r)
    ensures r.availableQuantity == l.availableQuantity + quantity
    ensures r.reservedQuantity == if l.reservedQuantity >= quantity then l.reservedQuantity - quantity
                                  else l.reservedQuantity
  {
    var credited := l.(availableQuantity := l.availableQuantity + quantity);
    if l.reservedQuantity >= quantity then credited.(reservedQuantity := l.reservedQuantity - quantity)
    else credited
  }

  /** The cylinders a line accounts for, available or held for an order. */
  function OnHand(l: StockLine): int {
    l.availableQuantity + l.reservedQuantity
  }

  /** Reserving keeps the stock on hand; deducting lowers it by exactly the quantity. */
  lemma OnHandAccounting(l: StockLine, quantity: nat)
    ensures ReservedLine(l, quantity).Ok? ==> OnHand(ReservedLine(l, quantity).value) == OnHand(l)
    ensures DeductedLine(l, quantity).Ok? ==> OnHand(DeductedLine(l, quantity).value) == OnHand(l) - quantity
  {
  }

  /** Cancelling a reservation gives back the line exactly as it was. */
  lemma ReserveThenRestore(l: StockLine, quantity: nat)
    requires LineValid(l) && ReservedLine(l, quantity).Ok?
    ensures RestoredLine(ReservedLine(l, quantity).value, quantity) == l
  {
    var m := ReservedLine(l, quantity).value;
    var n := RestoredLine(m, quantity);
    assert n.availableQuantity == l.availableQuantity && n.reservedQuantity == l.reservedQuantity;
    assert n == l.(availableQuantity := n.availableQuantity, reservedQuantity := n.reservedQuantity);
  }

  /** Reserving and then confirming takes the quantity from the available count
      and leaves the reservation where it started. */
  lemma ReserveThenDeduct(l: StockLine, quantity: nat)
    requires LineValid(l) && ReservedLine(l, quantity).Ok?
    ensures DeductedLine(ReservedLine(l, quantity).value, quantity)
         == Ok(l.(availableQuantity := l.availableQuantity - quantity))
  {
    var m := ReservedLine(l, quantity).value;
    var n := DeductedLine(m, quantity).value;
    assert n.availableQuantity == l.availableQuantity - quantity && n.reservedQuantity == l.reservedQuantity;
    assert n == l.(availableQuantity := n.availableQuantity, reservedQuantity := n.reservedQuantity);
  }

  /** Restoring a cash-on-delivery deduction gives back the line exactly as it was. */
  lemma DeductThenRestoreUnreserved(l: StockLine, quantity: nat)
    requires l.reservedQuantity < quantity && DeductedLine(l, quantity).Ok?
    ensures RestoredLine(DeductedLine(l, quantity).value, quantity) == l
  {
  }

  lemma ChangedLinesStayValid(l: StockLine, quantity: nat)
    requires LineValid(l)
    ensures ReservedLine(l, quantity).Ok? ==> LineValid(ReservedLine(l, quantity).value)
    ensures DeductedLine(l, quantity).Ok? ==> LineValid(DeductedLine(l, quantity).value)
    ensures LineValid(RestoredLine(l, quantity))
  {
  }

  // ---------------------------------------------------------------------------
  // What each operation does to a ledger

  /** One line replaced and one history entry pushed. */
  datatype LineChange = LineChange(index: nat, line: StockLine, entry: HistoryEntry)

  /** The change keeps the line's key and its entry records the line's
      available count before and after. */
  predicate Records(lines: seq<StockLine>, c: LineChange, quantity: nat) {
    && c.index < |lines|
    && SameLineExceptCounts(lines[c.index], c.line)
    && c.entry.quantity == quantity
    && c.entry.previousQuantity == lines[c.index].availableQuantity
    && c.entry.newQuantity == c.line.availableQuantity
  }

  /** `reserveStock` on a ledger's lines. The history entry's `updatedBy` is
      not a field of the schema and is dropped, so it carries no user. */
  function ReserveChange(lines: seq<StockLine>, request: StockRequest, now: int): (r: Result<LineChange>)
    ensures FindGasStock(lines, request.gasBrand, request.gasType).None? ==>
      r == Err(MissingLineMessage(lines, request.gasBrand, request.gasType))
    ensures FindGasStock(lines, request.gasBrand, request.gasType).Some? ==>
      var k := FindGasStock(lines, request.gasBrand, request.gasType).value;
      match ReservedLine(lines[k], request.quantity)
      case Err(m) => r == Err(m)
      case Ok(l) => r.Ok? && r.value.index == k && r.value.line == l && r.value.entry.action == "reserved"
    ensures r.Ok? ==> Records(lines, r.value, request.quantity)
  {
    match FindGasStock(lines, request.gasBrand, request.gasType)
    case None => Err(MissingLineMessage(lines, request.gasBrand, request.gasType))
    case Some(k) =>
      match ReservedLine(lines[k], request.quantity)
      case Err(m) => Err(m)
      case Ok(l) =>
        Ok(LineChange(k, l, HistoryEntry("reserved", request.gasBrand, request.gasType, request.quantity,
                                         l.availableQuantity + request.quantity, l.availableQuantity,
                                         "Stock reserved for order payment", None, None, now)))
  }

  /** The `previousQuantity` `deductStock` logs, computed as written from the
      line after the deduction. */
  function DeductPreviousAsWritten(after: StockLine, quantity: nat): int {
    after.availableQuantity + (if after.reservedQuantity > 0 then 0 else quantity)
  }

  /** The logged figure can disagree with the count before the deduction:
      15 available and 5 reserved, deduct 5 — the reservation is used, the
      available count stays 15, yet the entry says it was 20. */
  lemma DeductPreviousAsWrittenMisreports()
    ensures var l := StockLine("Laugfs", "Small", "2.3kg", 15, 5, 10, 100, 800, None, DefaultArrival, true);
      && DeductedLine(l, 5).Ok?
      && DeductedLine(l, 5).value.availableQuantity == 15
      && DeductPreviousAsWritten(DeductedLine(l, 5).value, 5) == 20
  {
  }

  /** `deductStock` on a ledger's lines, with the entry recording the count the
      line held before the deduction. */
  function DeductChange(lines: seq<StockLine>, request: StockRequest, now: int): (r: Result<LineChange>)
    ensures FindGasStock(lines, request.gasBrand, request.gasType).None? ==>
      r == Err(MissingLineMessage(lines, request.gasBrand, request.gasType))
    ensures FindGasStock(lines, request.gasBrand, request.gasType).Some? ==>
      var k := FindGasStock(lines, request.gasBrand, request.gasType).value;
      match DeductedLine(lines[k], request.quantity)
      case Err(m) => r == Err(m)
      case Ok(l) => r.Ok? && r.value.index == k && r.value.line == l && r.value.entry.action == "sale"
    ensures r.Ok? ==> Records(lines, r.value, request.quantity)
  {
    match FindGasStock(lines, request.gasBrand, request.gasType)
    case None => Err(MissingLineMessage(lines, request.gasBrand, request.gasType))
    case Some(k) =>
      match DeductedLine(lines[k], request.quantity)
      case Err(m) => Err(m)
      case Ok(l) =>
        Ok(LineChange(k, l, HistoryEntry("sale", request.gasBrand, request.gasType, request.quantity,
                                         lines[k].availableQuantity, l.availableQuantity,
                                         "Stock deducted for confirmed order", None, None, now)))
  }

  /** The logged action: "return" when the reason mentions a return, else "cancellation". */
  function RestoreAction(reason: string): (a: string)
    ensures a == "return" <==> Contains(ToLower(reason), "return")
    ensures a == "return" || a == "cancellation"
  {
    if Contains(ToLower(reason), "return") then "return" else "cancellation"
  }

  /** The reason `restoreStock` uses when its caller gives none. */
  function ReasonOrDefault(reason: Option<string>): string {
    match reason
    case Some(s) => s
    case None => "Order cancelled"
  }

  /** `restoreStock` on a ledger's lines; only a missing line fails. */
  function RestoreChange(lines: seq<StockLine>, request: StockRequest, reason: string, now: int): (r: Result<LineChange>)
    ensures FindGasStock(lines, request.gasBrand, request.gasType).None? ==>
      r == Err(MissingLineMessage(lines, request.gasBrand, request.gasType))
    ensures FindGasStock(lines, request.gasBrand, request.gasType).Some? ==>
      var k := FindGasStock(lines, request.gasBrand, request.gasType).value;
      r.Ok? && r.value.index == k && r.value.line == RestoredLine(lines[k], request.quantity)
      && r.value.entry.action == RestoreAction(reason) && r.value.entry.reason == reason
    ensures r.Ok? ==> Records(lines, r.value, request.quantity)
  {
    match FindGasStock(lines, request.gasBrand, request.gasType)
    case None => Err(MissingLineMessage(lines, request.gasBrand, request.gasType))
    case Some(k) =>
      var l := RestoredLine(lines[k], request.quantity);
      Ok(LineChange(k, l, HistoryEntry(RestoreAction(reason), request.gasBrand, request.gasType, request.quantity,
                                       l.availableQuantity - request.quantity, l.availableQuantity,
                                       reason, None, None, now)))
  }

  /** Writes a change into the ledger and saves it. */
  method ApplyChange(ledger: Ledger, c: LineChange, quantity: nat)
    requires ledger.Valid() && Records(ledger.gasStocks, c, quantity) && LineValid(c.line)
    modifies ledger
    ensures ledger.Valid()
    ensures ledger.gasStocks == old(ledger.gasStocks)[c.index := c.line]
    ensures ledger.stockHistory == old(ledger.stockHistory) + [c.entry]
    ensures ledger.shopId == old(ledger.shopId) && ledger.lastUpdatedBy == old(ledger.lastUpdatedBy)
    ensures ledger.updatedByRole == old(ledger.updatedByRole)
  {
    ReplaceLineValid(ledger.gasStocks, c.index, c.line);
    ledger.gasStocks := ledger.gasStocks[c.index := c.line];
    ledger.stockHistory := ledger.stockHistory + [c.entry];
    ledger.Save();
  }

  /** What `reserveStock` returns and does to the two stock records. With a
      shop id only the ledger is consulted, with only a legacy id only the
      legacy counter; a failure takes nothing anywhere, and no record changes
      its owner, its last editor or the product it describes. */
  twostate predicate ReserveEffect(request: StockRequest, shopId: Option<string>, gasStockId: Option<string>,
                                   shopStock: Ledger?, gasStock: GasStock?, now: int, r: StockResult)
    reads shopStock, gasStock
  {
    && (shopId.Some? && shopStock == null ==> r == Failed("Shop stock not found"))
    && (shopId.Some? && shopStock != null ==>
          match ReserveChange(old(shopStock.gasStocks), request, now)
          case Err(m) =>
            r == Failed(m) && shopStock.gasStocks == old(shopStock.gasStocks)
            && shopStock.stockHistory == old(shopStock.stockHistory)
          case Ok(c) =>
            && r == Succeeded("Stock reserved successfully", Some(c.line.availableQuantity), Some(c.line.reservedQuantity))
            && shopStock.gasStocks == old(shopStock.gasStocks)[c.index := c.line]
            && shopStock.stockHistory == old(shopStock.stockHistory) + [c.entry])
    && (shopId.None? && gasStockId.Some? && gasStock == null ==> r == Failed("Gas stock not found"))
    && (shopId.None? && gasStockId.Some? && gasStock != null ==>
          if old(gasStock.gasAvailableQty) < request.quantity then
            r == Failed(InsufficientMessage(old(gasStock.gasAvailableQty), request.quantity))
            && gasStock.gasAvailableQty == old(gasStock.gasAvailableQty)
          else
            gasStock.gasAvailableQty == old(gasStock.gasAvailableQty) - request.quantity
            && r == Succeeded("Stock reserved (legacy system)", Some(gasStock.gasAvailableQty), None))
    && (shopId.None? && gasStockId.None? ==> r == Absent)
    && (shopId.Some? && gasStock != null ==> gasStock.gasAvailableQty == old(gasStock.gasAvailableQty))
    && (shopId.None? && shopStock != null ==> unchanged(shopStock))
    && (gasStockId.None? && gasStock != null ==> gasStock.gasAvailableQty == old(gasStock.gasAvailableQty))
    && (r.Failed? ==>
          && (shopStock != null ==> shopStock.gasStocks == old(shopStock.gasStocks)
                                    && shopStock.stockHistory == old(shopStock.stockHistory))
          && (gasStock != null ==> gasStock.gasAvailableQty == old(gasStock.gasAvailableQty)))
    && (shopStock != null ==> shopStock.SameStamp())
    && (gasStock != null ==> gasStock.SameProduct())
  }

  /** `reserveStock`. With a shop id the ledger found for it is used (null when
      there is none); otherwise the legacy counter, which is decremented at once. */
  method ReserveStock(request: StockRequest, shopId: Option<string>, gasStockId: Option<string>,
                      shopStock: Ledger?, gasStock: GasStock?, now: int) returns (r: StockResult)
    requires shopStock != null ==> shopStock.Valid()
    modifies shopStock, gasStock
    ensures shopStock != null ==> shopStock.Valid()
    ensures ReserveEffect(request, shopId, gasStockId, shopStock, gasStock, now, r)
  {
    if shopId.Some? {
      if shopStock == null {
        return Failed("Shop stock not found");
      }
      match ReserveChange(shopStock.gasStocks, request, now) {
        case Err(m) => r := Failed(m);
        case Ok(c) =>
          ChangedLinesStayValid(shopStock.gasStocks[c.index], request.quantity);
          ApplyChange(shopStock, c, request.quantity);
          r := Succeeded("Stock reserved successfully", Some(c.line.availableQuantity), Some(c.line.reservedQuantity));
      }
    } else if gasStockId.Some? {
      if gasStock == null {
        return Failed("Gas stock not found");
      }
      if gasStock.gasAvailableQty < request.quantity {
        return Failed(InsufficientMessage(gasStock.gasAvailableQty, request.quantity));
      }
      gasStock.gasAvailableQty := gasStock.gasAvailableQty - request.quantity;
      r := Succeeded("Stock reserved (legacy system)", Some(gasStock.gasAvailableQty), None);
    } else {
      r := Absent;
    }
  }

  /** `deductStock`. The legacy path only acknowledges: the counter was
      already decremented when the order was placed. */
  method DeductStock(request: StockRequest, shopId: Option<string>, gasStockId: Option<string>,
                     shopStock: Ledger?, now: int) returns (r: StockResult)
    requires shopStock != null ==> shopStock.Valid()
    modifies shopStock
    ensures shopStock != null ==> shopStock.Valid()
    ensures shopId.Some? && shopStock == null ==> r == Failed("Shop stock not found")
    ensures shopId.Some? && shopStock != null ==>
      match DeductChange(old(shopStock.gasStocks), request, now)
      case Err(m) =>
        r == Failed(m) && shopStock.gasStocks == old(shopStock.gasStocks)
        && shopStock.stockHistory == old(shopStock.stockHistory)
      case Ok(c) =>
        && r == Succeeded("Stock deducted successfully", Some(c.line.availableQuantity), Some(c.line.reservedQuantity))
        && shopStock.gasStocks == old(shopStock.gasStocks)[c.index := c.line]
        && shopStock.stockHistory == old(shopStock.stockHistory) + [c.entry]
    ensures shopId.None? && gasStockId.Some? ==> r == Succeeded("Stock already handled (legacy system)", None, None)
    ensures shopId.None? && gasStockId.None? ==> r == Absent
    ensures shopId.None? && shopStock != null ==> unchanged(shopStock)
    ensures shopStock != null ==> shopStock.SameStamp()
  {
    if shopId.Some? {
      if shopStock == null {
        return Failed("Shop stock not found");
      }
      match DeductChange(shopStock.gasStocks, request, now) {
        case Err(m) => r := Failed(m);
        case Ok(c) =>
          ChangedLinesStayValid(shopStock.gasStocks[c.index], request.quantity);
          ApplyChange(shopStock, c, request.quantity);
          r := Succeeded("Stock deducted successfully", Some(c.line.availableQuantity), Some(c.line.reservedQuantity));
      }
    } else if gasStockId.Some? {
      r := Succeeded("Stock already handled (legacy system)", None, None);
    } else {
      r := Absent;
    }
  }

  /** `restoreStock`: credits the stock back, on the ledger or the legacy counter. */
  method RestoreStock(request: StockRequest, shopId: Option<string>, gasStockId: Option<string>,
                      reason: Option<string>, shopStock: Ledger?, gasStock: GasStock?, now: int)
    returns (r: StockResult)
    requires shopStock != null ==> shopStock.Valid()
    modifies shopStock, gasStock
    ensures shopStock != null ==> shopStock.Valid()
    ensures shopId.Some? && shopStock == null ==> r == Failed("Shop stock not found")
    ensures shopId.Some? && shopStock != null ==>
      match RestoreChange(old(shopStock.gasStocks), request, ReasonOrDefault(reason), now)
      case Err(m) =>
        r == Failed(m) && shopStock.gasStocks == old(shopStock.gasStocks)
        && shopStock.stockHistory == old(shopStock.stockHistory)
      case Ok(c) =>
        && r == Succeeded("Stock restored successfully", Some(c.line.availableQuantity), Some(c.line.reservedQuantity))
        && shopStock.gasStocks == old(shopStock.gasStocks)[c.index := c.line]
        && shopStock.stockHistory == old(shopStock.stockHistory) + [c.entry]
    ensures shopId.None? && gasStockId.Some? && gasStock == null ==> r == Failed("Gas stock not found")
    ensures shopId.None? && gasStockId.Some? && gasStock != null ==>
      gasStock.gasAvailableQty == old(gasStock.gasAvailableQty) + request.quantity
      && r == Succeeded("Stock restored (legacy system)", Some(gasStock.gasAvailableQty), None)
    ensures shopId.None? && gasStockId.None? ==> r == Absent
    ensures shopId.Some? && gasStock != null ==> gasStock.gasAvailableQty == old(gasStock.gasAvailableQty)
    ensures shopId.None? && shopStock != null ==> unchanged(shopStock)
    ensures gasStockId.None? && gasStock != null ==> gasStock.gasAvailableQty == old(gasStock.gasAvailableQty)
    ensures shopStock != null ==> shopStock.SameStamp()
    ensures gasStock != null ==> gasStock.SameProduct()
  {
    if shopId.Some? {
      if shopStock == null {
        return Failed("Shop stock not found");
      }
      match RestoreChange(shopStock.gasStocks, request, ReasonOrDefault(reason), now) {
        case Err(m) => r := Failed(m);
        case Ok(c) =>
          ChangedLinesStayValid(shopStock.gasStocks[c.index], request.quantity);
          ApplyChange(shopStock, c, request.quantity);
          r := Succeeded("Stock restored successfully", Some(c.line.availableQuantity), Some(c.line.reservedQuantity));
      }
    } else if gasStockId.Some? {
      if gasStock == null {
        return Failed("Gas stock not found");
      }
      gasStock.gasAvailableQty := gasStock.gasAvailableQty + request.quantity;
      r := Succeeded("Stock restored (legacy system)", Some(gasStock.gasAvailableQty), None);
    } else {
      r := Absent;
    }
  }

  // ---------------------------------------------------------------------------
  // Read-only queries

  datatype StockInfo =
    | Info(availableQuantity: int, reservedQuantity: int, totalQuantity: int)
    | InfoFailed(message: string)
    | InfoAbsent

  /** The lines of the ledger a shop-id lookup found, `None` when it found none. */
  function LinesOf(shopStock: Ledger?): (r: Option<seq<StockLine>>)
    reads shopStock
    ensures r.None? <==> shopStock == null
    ensures r.Some? ==> r.value == shopStock.gasStocks
  {
    if shopStock == null then None else Some(shopStock.gasStocks)
  }

  /** `getAvailableStock` of the service, given the lines of the ledger found
      for the shop id: the matched line's counts and their sum. */
  function GetAvailableStock(shopId: Option<string>, gasBrand: string, gasType: string,
                             ledger: Option<seq<StockLine>>): (r: StockInfo)
    ensures shopId.None? <==> r.InfoAbsent?
    ensures shopId.Some? && ledger.None? ==> r == InfoFailed("Shop stock not found")
    ensures shopId.Some? && ledger.Some? ==>
      match FindGasStock(ledger.value, gasBrand, gasType)
      case None => r == InfoFailed("Gas stock not found")
      case Some(k) =>
        r.Info? && r.availableQuantity == ledger.value[k].availableQuantity
        && r.reservedQuantity == ledger.value[k].reservedQuantity
    ensures r.Info? ==> r.totalQuantity == r.availableQuantity + r.reservedQuantity
  {
    if shopId.None? then InfoAbsent
    else match ledger
      case None => InfoFailed("Shop stock not found")
      case Some(lines) =>
        match FindGasStock(lines, gasBrand, gasType)
        case None => InfoFailed("Gas stock not found")
        case Some(k) =>
          var l := lines[k];
          Info(l.availableQuantity, l.reservedQuantity, l.availableQuantity + l.reservedQuantity)
  }

  datatype Availability =
    | Verdict(available: bool, availableQuantity: int, requestedQuantity: int, shortage: int)
    | Unavailable(message: string)
    | Unanswered

  /** Whether `available` covers `requested`, and by how much it falls short. */
  function VerdictFor(available: int, requested: nat): (r: Availability)
    ensures r.Verdict? && r.availableQuantity == available && r.requestedQuantity == requested
    ensures r.available <==> r.shortage == 0
    ensures r.shortage >= 0 && r.availableQuantity + r.shortage >= r.requestedQuantity
    ensures r.shortage > 0 ==> r.availableQuantity + r.shortage == r.requestedQuantity
  {
    Verdict(available >= requested, available, requested, if requested - available > 0 then requested - available else 0)
  }

  /** `checkStockAvailability`, given the lines of the ledger found for the
      shop id and the legacy counter's quantity (`None` when not found): the
      ledger is asked about the converted type, the counter compared directly. */
  function CheckStockAvailability(request: StockRequest, shopId: Option<string>, gasStockId: Option<string>,
                                  ledger: Option<seq<StockLine>>, legacyQty: Option<int>): (r: Availability)
    ensures shopId.Some? ==>
      var info := GetAvailableStock(shopId, request.gasBrand, ConvertGasType(request.gasType), ledger);
      && (info.Info? ==> r == VerdictFor(info.availableQuantity, request.quantity))
      && (info.InfoFailed? ==> r == Unavailable(info.message))
    ensures shopId.None? && gasStockId.Some? ==>
      r == match legacyQty
           case None => Unavailable("Gas stock not found")
           case Some(q) => VerdictFor(q, request.quantity)
    ensures shopId.None? && gasStockId.None? ==> r == Unanswered
  {
    if shopId.Some? then
      var info := GetAvailableStock(shopId, request.gasBrand, ConvertGasType(request.gasType), ledger);
      if info.Info? then VerdictFor(info.availableQuantity, request.quantity)
      else if info.InfoFailed? then Unavailable(info.message)
      else Unanswered
    else if gasStockId.Some? then
      match legacyQty
      case None => Unavailable("Gas stock not found")
      case Some(q) => VerdictFor(q, request.quantity)
    else Unanswered
  }

  /** The exception, on a concrete ledger: a "2.3kg" line with nothing
      available and a "Small" line with 5. Three "2.3kg" cylinders are reported
      available, from the "Small" line, yet their reservation is refused,
      because it is taken from the "2.3kg" line. */
  lemma CheckAndReserveDisagree(now: int)
    ensures var lines := [StockLine("Laugfs", "2.3kg", "2.3kg", 0, 0, 10, 100, 800, None, DefaultArrival, true),
                          StockLine("Laugfs", "Small", "2.3kg", 5, 0, 10, 100, 800, None, DefaultArrival, true)];
            var request := StockRequest("Laugfs", "2.3kg", 3);
      && CheckStockAvailability(request, Some("shop"), None, Some(lines), None) == Verdict(true, 5, 3, 0)
      && ReserveChange(lines, request, now).Err?
  {
    var lines := [StockLine("Laugfs", "2.3kg", "2.3kg", 0, 0, 10, 100, 800, None, DefaultArrival, true),
                  StockLine("Laugfs", "Small", "2.3kg", 5, 0, 10, 100, 800, None, DefaultArrival, true)];
    LowerTo("2.3kg", "2.3kg");
    TrimWord("2.3kg");
    assert ConvertGasType("2.3kg") == "Small";
    assert FindLine(lines, "Laugfs", "Small") == Some(1);
    assert FindLine(lines, "Laugfs", "2.3kg") == Some(0);
  }

  /** A positive availability check means the reservation that follows
      succeeds, provided the check and the reservation look at the same line:
      that is so when the requested type is already its own converted name
      ("Small", or any type that is not a size spelling), and whenever no line
      carries the requested type verbatim. The one exception: when a ledger
      holds both a "2.3kg" and a "Small" line of a brand, a request for "2.3kg"
      is checked against the "Small" line and reserved from the other. */
  lemma AvailableMeansReservable(request: StockRequest, shopId: string, lines: seq<StockLine>, now: int)
    requires FindLine(lines, request.gasBrand, request.gasType).None?
             || ConvertGasType(request.gasType) == request.gasType
    requires var v := CheckStockAvailability(request, Some(shopId), None, Some(lines), None);
      v.Verdict? && v.available
    ensures ReserveChange(lines, request, now).Ok?
  {
    var converted := ConvertGasType(request.gasType);
    if FindLine(lines, request.gasBrand, request.gasType).None? {
      FindConvertedSameLine(lines, request.gasBrand, request.gasType);
    }
    var found := FindGasStock(lines, request.gasBrand, converted);
    assert found == FindGasStock(lines, request.gasBrand, request.gasType);
    var info := GetAvailableStock(Some(shopId), request.gasBrand, converted, Some(lines));
    assert info.Info? by {
      assert CheckStockAvailability(request, Some(shopId), None, Some(lines), None).Verdict?;
    }
    var k := found.value;
    assert info.availableQuantity == lines[k].availableQuantity;
    assert ReservedLine(lines[k], request.quantity).Ok?;
  }
}
