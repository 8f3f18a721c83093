/** The shop controller's stock-relevant logic (`controller/ShopController.js`):
    the ledger every new shop starts with, shop creation and deletion over a
    registry of shops and their ledgers, status updates, and the stock filter
    of the nearby-shops search. */
module ShopController {
  import opened Wrappers
  import opened Text
  import opened ShopStock
  import opened ShopSchema

  // ---------------------------------------------------------------------------
  // The initial ledger

  /** One entry of the constant table the initial ledger is built from. */
  datatype GasTemplate = GasTemplate(brandName: string, gasType: string, gasSize: string, unitPrice: int)

  const DefaultGasTypes: seq<GasTemplate> := [
    GasTemplate("Laugfs", "Small", "2.3kg", 800),
    GasTemplate("Laugfs", "Medium", "5kg", 1700),
    GasTemplate("Laugfs", "Large", "12.5kg", 4200),
    GasTemplate("Litro", "Small", "2.3kg", 780),
    GasTemplate("Litro", "Medium", "5kg", 1650),
    GasTemplate("Litro", "Large", "12.5kg", 4100)
  ]

  /** A table entry as a line: empty, with levels 10 and 100, on sale, and the
      remaining fields at their schema defaults. */
  function InitialLine(g: GasTemplate): (l: StockLine)
    ensures l.brandName == g.brandName && l.gasType == g.gasType && l.gasSize == g.gasSize && l.unitPrice == g.unitPrice
    ensures l.availableQuantity == 0 && l.reservedQuantity == 0
    ensures l.minStockLevel == 10 && l.maxStockLevel == 100 && l.isAvailable
    ensures l.lastRestockDate == None && l.nextArrival == DefaultArrival
  {
    StockLine(g.brandName, g.gasType, g.gasSize, 0, 0, 10, 100, g.unitPrice, None, DefaultArrival, true)
  }

  function DefaultLines(): (r: seq<StockLine>)
    ensures |r| == |DefaultGasTypes| == 6
    ensures forall i :: 0 <= i < |r| ==> r[i] == InitialLine(DefaultGasTypes[i])
  {
    seq(|DefaultGasTypes|, i requires 0 <= i < |DefaultGasTypes| => InitialLine(DefaultGasTypes[i]))
  }

  /** The six (brand, type) keys of the initial ledger are pairwise distinct,
      so it is a valid ledger. */
  lemma DefaultLinesValid()
    ensures LinesValid(DefaultLines())
  {
    var lines := DefaultLines();
    forall i, j | 0 <= i < j < |lines|
      ensures !HasKey(lines[j], lines[i].brandName, lines[i].gasType)
    {
      DistinctTemplates(i, j);
    }
  }

  lemma DistinctTemplates(i: nat, j: nat)
    requires i < j < 6
    ensures DefaultGasTypes[i].brandName != DefaultGasTypes[j].brandName
         || DefaultGasTypes[i].gasType != DefaultGasTypes[j].gasType
  {
    var g, h := DefaultGasTypes[i], DefaultGasTypes[j];
    if i < 3 <= j {
      assert g.brandName == "Laugfs" && h.brandName == "Litro";
      assert "Laugfs"[1] != "Litro"[1];
    } else {
      assert i % 3 != j % 3;
      assert g.gasType[0] != h.gasType[0];
    }
  }

  /** Every brand and size of the product range has a line. */
  lemma DefaultLinesCover(brandName: string, gasType: string)
    requires brandName == "Laugfs" || brandName == "Litro"
    requires gasType == "Small" || gasType == "Medium" || gasType == "Large"
    ensures FindLine(DefaultLines(), brandName, gasType).Some?
  {
    var lines := DefaultLines();
    var k := (if brandName == "Laugfs" then 0 else 3)
           + (if gasType == "Small" then 0 else if gasType == "Medium" then 1 else 2);
    assert HasKey(lines[k], brandName, gasType);
  }

  /** A new ledger is worth nothing and raises an out-of-stock alert on every line. */
  lemma DefaultLedgerAllOutOfStock()
    ensures TotalValue(DefaultLines()) == 0
    ensures |Alerts(DefaultLines())| == 6
    ensures forall k :: 0 <= k < 6 ==> Alerts(DefaultLines())[k].alertType == OutOfStock
  {
    var lines := DefaultLines();
    EmptyLinesWorthNothing(lines);
    EmptyLinesAllOut(lines);
  }

  lemma {:induction false} EmptyLinesWorthNothing(lines: seq<StockLine>)
    requires forall i :: 0 <= i < |lines| ==> lines[i].availableQuantity == 0
    ensures TotalValue(lines) == 0
  {
    if lines != [] {
      var init := lines[..|lines| - 1];
      TotalValueAppend(init, [lines[|lines| - 1]]);
      assert init + [lines[|lines| - 1]] == lines;
      EmptyLinesWorthNothing(init);
      assert TotalValue([lines[|lines| - 1]]) == LineValue(lines[|lines| - 1]) + TotalValue([]);
    }
  }

  lemma {:induction false} EmptyLinesAllOut(lines: seq<StockLine>)
    requires forall i :: 0 <= i < |lines| ==> lines[i].availableQuantity == 0 && lines[i].isAvailable
    ensures |Alerts(lines)| == |lines|
    ensures forall k :: 0 <= k < |lines| ==> Alerts(lines)[k] == Alert(lines[k].gasType, lines[k].brandName, OutOfStock)
  {
    if lines != [] {
      var init, last := lines[..|lines| - 1], lines[|lines| - 1];
      EmptyLinesAllOut(init);
      assert AlertList(last) == [Alert(last.gasType, last.brandName, OutOfStock)];
      assert Alerts(lines) == Alerts(init) + AlertList(last);
    }
  }

  /** The week `createShop` uses when none is given. */
  const DefaultHours := OperatingHours(
    DayHours(Some("08:00"), Some("20:00"), true),
    DayHours(Some("08:00"), Some("20:00"), true),
    DayHours(Some("08:00"), Some("20:00"), true),
    DayHours(Some("08:00"), Some("20:00"), true),
    DayHours(Some("08:00"), Some("20:00"), true),
    DayHours(Some("08:00"), Some("18:00"), true),
    DayHours(Some("09:00"), Some("17:00"), false))

  /** Under the default week an active shop is open 08:00 to 20:00 on weekdays,
      08:00 to 18:00 on Saturday and not at all on Sunday. */
  lemma DefaultHoursWindows(day: nat, hour: nat, minute: nat)
    requires day < 7
    ensures day == 0 ==> !IsOpen(Active, DefaultHours, day, hour, minute)
    ensures 1 <= day <= 5 ==> (IsOpen(Active, DefaultHours, day, hour, minute) <==> 800 <= 100 * hour + minute <= 2000)
    ensures day == 6 ==> (IsOpen(Active, DefaultHours, day, hour, minute) <==> 800 <= 100 * hour + minute <= 1800)
  {
    if day != 0 {
      assert IsClock("08:00") && ClockNumber("08:00") == 800 by { ClockOf('0', '8', '0', '0'); }
      if day == 6 {
        assert IsClock("18:00") && ClockNumber("18:00") == 1800 by { ClockOf('1', '8', '0', '0'); }
      } else {
        assert IsClock("20:00") && ClockNumber("20:00") == 2000 by { ClockOf('2', '0', '0', '0'); }
      }
      OpenBetween(Active, DefaultHours, day, hour, minute);
    }
  }

  lemma ClockOf(a: char, b: char, c: char, d: char)
    requires IsDigit(a) && IsDigit(b) && IsDigit(c) && IsDigit(d)
    ensures IsClock([a, b, ':', c, d])
    ensures ClockNumber([a, b, ':', c, d])
         == 100 * (10 * DigitValue(a) + DigitValue(b)) + 10 * DigitValue(c) + DigitValue(d)
  {
    var t := [a, b, ':', c, d];
    assert t[..2] == [a, b] && t[3..] == [c, d];
    TwoDigits(a, b);
    TwoDigits(c, d);
  }

  lemma TwoDigits(a: char, b: char)
    requires IsDigit(a) && IsDigit(b)
    ensures AllDigits([a, b]) && Value([a, b]) == 10 * DigitValue(a) + DigitValue(b)
  {
    assert [a, b][..1] == [a];
    assert [a][..0] == [];
    assert Value([a]) == DigitValue(a);
  }

  // ---------------------------------------------------------------------------
  // The registry of shops and their ledgers

  datatype ShopRecord = ShopRecord(
    shopName: string, shopCode: string, licenseNumber: string,
    status: ShopStatus, hours: OperatingHours, salesAgentId: Option<string>)

  /** What `createShop` is sent; the week is optional. */
  datatype NewShop = NewShop(
    shopName: string, shopCode: string, licenseNumber: string,
    hours: Option<OperatingHours>, salesAgentId: Option<string>)

  /** The shops by id, and the ledger of each shop by shop id. */
  datatype Registry = Registry(shops: map<string, ShopRecord>, stock: map<string, seq<StockLine>>)

  /** Shop codes and licence numbers are unique (the schema's unique indexes),
      every ledger belongs to a stored shop and is valid. */
  predicate RegistryValid(r: Registry) {
    && r.stock.Keys <= r.shops.Keys
    && (forall id :: id in r.stock ==> LinesValid(r.stock[id]))
    && (forall a, b :: a in r.shops && b in r.shops && a != b ==>
          r.shops[a].shopCode != r.shops[b].shopCode && r.shops[a].licenseNumber != r.shops[b].licenseNumber)
  }

  /** `Shop.findOne({$or: [{shopCode}, {licenseNumber}]})` finds a shop. */
  predicate Clashes(r: Registry, shopCode: string, licenseNumber: string) {
    exists id :: id in r.shops && (r.shops[id].shopCode == shopCode || r.shops[id].licenseNumber == licenseNumber)
  }

  function RecordOf(s: NewShop): (rec: ShopRecord)
    ensures rec.status == DefaultShopStatus
    ensures s.hours.None? ==> rec.hours == DefaultHours
    ensures s.hours.Some? ==> rec.hours == s.hours.value
  {
    ShopRecord(s.shopName, s.shopCode, s.licenseNumber, DefaultShopStatus,
               if s.hours.Some? then s.hours.value else DefaultHours, s.salesAgentId)
  }

  /** `createShop` under the new id `id`. A clash on code or licence is refused
      first, then a named sales agent that does not exist (`agentFound`); no
      ledger is built for a refused shop. */
  function CreateShop(r: Registry, id: string, s: NewShop, agentFound: bool): (res: Result<Registry>)
    ensures Clashes(r, s.shopCode, s.licenseNumber) ==>
      res == Err("Shop with this code or license number already exists")
    ensures !Clashes(r, s.shopCode, s.licenseNumber) && s.salesAgentId.Some? && !agentFound ==>
      res == Err("Sales Agent not found")
    ensures res.Ok? <==> !Clashes(r, s.shopCode, s.licenseNumber) && (s.salesAgentId.None? || agentFound)
    ensures res.Ok? ==>
      && res.value.shops == r.shops[id := RecordOf(s)]
      && res.value.stock == r.stock[id := DefaultLines()]
  {
    if Clashes(r, s.shopCode, s.licenseNumber) then Err("Shop with this code or license number already exists")
    else if s.salesAgentId.Some? && !agentFound then Err("Sales Agent not found")
    else Ok(Registry(r.shops[id := RecordOf(s)], r.stock[id := DefaultLines()]))
  }

  /** Creating a shop under a new id keeps the registry valid. */
  lemma CreateShopKeepsValid(r: Registry, id: string, s: NewShop, agentFound: bool)
    requires RegistryValid(r) && id !in r.shops
    requires CreateShop(r, id, s, agentFound).Ok?
    ensures RegistryValid(CreateShop(r, id, s, agentFound).value)
  {
    var r' := CreateShop(r, id, s, agentFound).value;
    DefaultLinesValid();
    forall a, b | a in r'.shops && b in r'.shops && a != b
      ensures r'.shops[a].shopCode != r'.shops[b].shopCode && r'.shops[a].licenseNumber != r'.shops[b].licenseNumber
    {
      if a == id {
        assert !(r.shops[b].shopCode == s.shopCode || r.shops[b].licenseNumber == s.licenseNumber);
      } else if b == id {
        assert !(r.shops[a].shopCode == s.shopCode || r.shops[a].licenseNumber == s.licenseNumber);
      }
    }
  }

  /** `deleteShop`: the shop and its ledger go together. */
  function DeleteShop(r: Registry, id: string): (res: Result<Registry>)
    ensures res.Err? <==> id !in r.shops
    ensures res.Err? ==> res.message == "Shop not found"
    ensures res.Ok? ==>
      && id !in res.value.shops && id !in res.value.stock
      && (forall k :: k in r.shops && k != id ==> k in res.value.shops && res.value.shops[k] == r.shops[k])
      && (forall k :: k in r.stock && k != id ==> k in res.value.stock && res.value.stock[k] == r.stock[k])
      && res.value.shops.Keys == r.shops.Keys - {id} && res.value.stock.Keys == r.stock.Keys - {id}
  {
    if id !in r.shops then Err("Shop not found")
    else Ok(Registry(r.shops - {id}, r.stock - {id}))
  }

  /** Deleting keeps the registry valid; no ledger is left without its shop. */
  lemma DeleteShopKeepsValid(r: Registry, id: string)
    requires RegistryValid(r) && DeleteShop(r, id).Ok?
    ensures RegistryValid(DeleteShop(r, id).value)
  {
  }

  /** A created shop can be deleted again, which gives back the registry as it was. */
  lemma CreateThenDelete(r: Registry, id: string, s: NewShop, agentFound: bool)
    requires id !in r.shops && r.stock.Keys <= r.shops.Keys
    requires CreateShop(r, id, s, agentFound).Ok?
    ensures DeleteShop(CreateShop(r, id, s, agentFound).value, id) == Ok(r)
  {
    var r' := CreateShop(r, id, s, agentFound).value;
    assert r'.shops - {id} == r.shops;
    assert r'.stock - {id} == r.stock;
  }

  const StatusChoices := "active, inactive, maintenance, closed"

  /** `updateShopStatus`: the status is checked against the four values before
      the shop is looked up. */
  function UpdateShopStatus(r: Registry, id: string, status: string): (res: Result<Registry>)
    ensures ParseShopStatus(status).None? ==> res == Err("Invalid status. Must be one of: " + StatusChoices)
    ensures ParseShopStatus(status).Some? && id !in r.shops ==> res == Err("Shop not found")
    ensures res.Ok? <==> ParseShopStatus(status).Some? && id in r.shops
    ensures res.Ok? ==>
      && res.value.stock == r.stock
      && res.value.shops == r.shops[id := r.shops[id].(status := ParseShopStatus(status).value)]
      && ShopStatusName(res.value.shops[id].status) == status
  {
    match ParseShopStatus(status)
    case None => Err("Invalid status. Must be one of: " + StatusChoices)
    case Some(st) =>
      if id !in r.shops then Err("Shop not found")
      else Ok(r.(shops := r.shops[id := r.shops[id].(status := st)]))
  }

  lemma UpdateShopStatusKeepsValid(r: Registry, id: string, status: string)
    requires RegistryValid(r) && UpdateShopStatus(r, id, status).Ok?
    ensures RegistryValid(UpdateShopStatus(r, id, status).value)
  {
  }

  // ---------------------------------------------------------------------------
  // The nearby-shops stock filter

  /** A query parameter that is present and not empty (`!param` is false). */
  predicate Given(f: Option<string>) {
    f.Some? && f.value != ""
  }

  /** A line matches every given filter and has stock on hand. */
  predicate Wanted(l: StockLine, gasType: Option<string>, brandName: Option<string>) {
    && (!Given(gasType) || l.gasType == gasType.value)
    && (!Given(brandName) || l.brandName == brandName.value)
    && l.availableQuantity > 0
  }

  /** `gasStocks.some(...)`. */
  function AnyWanted(lines: seq<StockLine>, gasType: Option<string>, brandName: Option<string>): (r: bool)
    ensures r <==> exists i :: 0 <= i < |lines| && Wanted(lines[i], gasType, brandName)
  {
    if lines == [] then false
    else Wanted(lines[0], gasType, brandName) || AnyWanted(lines[1..], gasType, brandName)
  }

  /** Whether a shop stays in the nearby results. `stock` is its ledger's lines,
      `None` when it has no ledger. */
  function HasRequestedStock(stock: Option<seq<StockLine>>, gasType: Option<string>, brandName: Option<string>)
    : (keep: bool)
    ensures stock.None? || (!Given(gasType) && !Given(brandName)) ==> keep
    ensures stock.Some? && (Given(gasType) || Given(brandName)) ==>
      (keep <==> exists i :: 0 <= i < |stock.value| && Wanted(stock.value[i], gasType, brandName))
  {
    if stock.Some? && (Given(gasType) || Given(brandName)) then AnyWanted(stock.value, gasType, brandName)
    else true
  }

  datatype Candidate = Candidate(shopId: string, stock: Option<seq<StockLine>>)

  /** The shops found within the radius, with those lacking the requested stock
      dropped and the order kept (distance and sorting are not modelled). */
  function NearbyFilter(shops: seq<Candidate>, gasType: Option<string>, brandName: Option<string>)
    : (r: seq<Candidate>)
    ensures |r| <= |shops|
    ensures forall c :: c in r <==> c in shops && HasRequestedStock(c.stock, gasType, brandName)
  {
    if shops == [] then []
    else
      (if HasRequestedStock(shops[0].stock, gasType, brandName) then [shops[0]] else [])
      + NearbyFilter(shops[1..], gasType, brandName)
  }

  /** Filtering a concatenation filters each part in place: the shops kept
      stay in the order the query returned them. */
  lemma {:induction false} NearbyFilterAppend(a: seq<Candidate>, b: seq<Candidate>,
                                              gasType: Option<string>, brandName: Option<string>)
    ensures NearbyFilter(a + b, gasType, brandName) == NearbyFilter(a, gasType, brandName) + NearbyFilter(b, gasType, brandName)
  {
    if a == [] {
      assert a + b == b;
    } else {
      assert (a + b)[0] == a[0] && (a + b)[1..] == a[1..] + b;
      NearbyFilterAppend(a[1..], b, gasType, brandName);
    }
  }

  /** With neither filter, nothing is dropped. */
  lemma NoFilterKeepsAll(shops: seq<Candidate>, gasType: Option<string>, brandName: Option<string>)
    requires !Given(gasType) && !Given(brandName)
    ensures NearbyFilter(shops, gasType, brandName) == shops
  {
  }
}
