/** The hourly arrival scheduler (`utils/stockScheduler.js`): a start/stop
    switch around a scan that executes every scheduled arrival that has come
    due, across every ledger the database query returns. */
module StockScheduler {
  import opened Wrappers
  import opened ShopStock

  // ---------------------------------------------------------------------------
  // What one scan does, as functions on values

  /** The scan's own filter for a line: a scheduled, auto-updating arrival dated
      no later than the end of today. A missing date reads as the epoch. */
  predicate Due(l: StockLine, endOfToday: int) {
    l.nextArrival.status == Scheduled && l.nextArrival.autoUpdateEnabled
    && DateValue(l.nextArrival.arrivalDate) <= endOfToday
  }

  /** A line the scan executes: it passes the filter and `executeArrival`,
      which compares the arrival date with the current instant, credits it. */
  predicate Fires(l: StockLine, now: int, endOfToday: int) {
    Due(l, endOfToday) && ArrivalReady(l.nextArrival, now)
  }

  function ScanLine(l: StockLine, now: int, endOfToday: int): (r: StockLine)
    ensures HasKey(r, l.brandName, l.gasType)
    ensures LineValid(l) ==> LineValid(r)
    ensures !Fires(l, now, endOfToday) ==> r == l
  {
    if Fires(l, now, endOfToday) then ArrivedLine(l, now) else l
  }

  /** The lines after a scan of one ledger. */
  function ScanLines(lines: seq<StockLine>, now: int, endOfToday: int): (r: seq<StockLine>)
    ensures |r| == |lines|
    ensures forall i :: 0 <= i < |lines| ==> r[i] == ScanLine(lines[i], now, endOfToday)
  {
    if lines == [] then []
    else ScanLines(lines[..|lines| - 1], now, endOfToday) + [ScanLine(lines[|lines| - 1], now, endOfToday)]
  }

  /** How many lines of a ledger a scan executes. */
  function Fired(lines: seq<StockLine>, now: int, endOfToday: int): (n: nat)
    ensures n <= |lines|
  {
    if lines == [] then 0
    else Fired(lines[..|lines| - 1], now, endOfToday) + (if Fires(lines[|lines| - 1], now, endOfToday) then 1 else 0)
  }

  /** The history entries a scan of one ledger appends, in line order. */
  function ScanEntries(lines: seq<StockLine>, now: int, endOfToday: int): (r: seq<HistoryEntry>)
    ensures |r| == Fired(lines, now, endOfToday)
  {
    if lines == [] then []
    else
      var last := lines[|lines| - 1];
      ScanEntries(lines[..|lines| - 1], now, endOfToday) + (if Fires(last, now, endOfToday) then [ArrivalEntry(last, now)] else [])
  }

  /** The database query. Without `$elemMatch` its three conditions may be met
      by three different lines, and a line with no arrival date never meets
      the date condition. */
  predicate Selected(lines: seq<StockLine>, endOfToday: int) {
    && (exists i :: 0 <= i < |lines| && lines[i].nextArrival.status == Scheduled)
    && (exists i :: 0 <= i < |lines| && lines[i].nextArrival.autoUpdateEnabled)
    && (exists i :: 0 <= i < |lines| && DatedBy(lines[i], endOfToday))
  }

  predicate DatedBy(l: StockLine, endOfToday: int) {
    l.nextArrival.arrivalDate.Some? && l.nextArrival.arrivalDate.value <= endOfToday
  }

  /** A ledger's lines after a scan: untouched unless the query returned it. */
  function AfterScan(lines: seq<StockLine>, now: int, endOfToday: int): seq<StockLine> {
    if Selected(lines, endOfToday) then ScanLines(lines, now, endOfToday) else lines
  }

  /** The entries a scan appends to a ledger's history: none unless the query returned it. */
  function LoggedIn(lines: seq<StockLine>, now: int, endOfToday: int): seq<HistoryEntry> {
    if Selected(lines, endOfToday) then ScanEntries(lines, now, endOfToday) else []
  }

  function FiredIn(lines: seq<StockLine>, now: int, endOfToday: int): nat {
    if Selected(lines, endOfToday) then Fired(lines, now, endOfToday) else 0
  }

  /** Arrivals executed across a sequence of ledgers' lines. */
  function TotalFired(docs: seq<seq<StockLine>>, now: int, endOfToday: int): nat {
    if docs == [] then 0 else TotalFired(docs[..|docs| - 1], now, endOfToday) + FiredIn(docs[|docs| - 1], now, endOfToday)
  }

  /** A second scan at the same instant executes nothing: every line the first
      one credited is completed, and every other line still fails the test. */
  lemma {:induction false} RescanFiresNothing(lines: seq<StockLine>, now: int, endOfToday: int)
    ensures Fired(ScanLines(lines, now, endOfToday), now, endOfToday) == 0
  {
    if lines != [] {
      var init := lines[..|lines| - 1];
      var s := ScanLines(lines, now, endOfToday);
      assert s[..|s| - 1] == ScanLines(init, now, endOfToday);
      RescanFiresNothing(init, now, endOfToday);
      ArrivalExecutedOnce(lines[|lines| - 1], now, now);
    }
  }

  /** Scanning is idempotent at a given instant. */
  lemma RescanChangesNothing(lines: seq<StockLine>, now: int, endOfToday: int)
    ensures ScanLines(ScanLines(lines, now, endOfToday), now, endOfToday) == ScanLines(lines, now, endOfToday)
  {
    var s := ScanLines(lines, now, endOfToday);
    forall i | 0 <= i < |s| ensures ScanLine(s[i], now, endOfToday) == s[i] {
      ArrivalExecutedOnce(lines[i], now, now);
    }
  }

  /** Exactly the lines that fire are credited with their expected quantity. */
  lemma ScanCreditsFiredLines(lines: seq<StockLine>, now: int, endOfToday: int, i: nat)
    requires i < |lines|
    ensures var r := ScanLines(lines, now, endOfToday)[i];
      r.availableQuantity == lines[i].availableQuantity
        + (if Fires(lines[i], now, endOfToday) then lines[i].nextArrival.expectedQuantity else 0)
  {
  }

  /** An arrival due later today passes the filter but is not executed yet. */
  lemma DueLaterTodayWaits(l: StockLine, now: int, endOfToday: int)
    requires l.nextArrival.status == Scheduled && l.nextArrival.autoUpdateEnabled
    requires l.nextArrival.arrivalDate == Some(now + 1) && now + 1 <= endOfToday
    ensures Due(l, endOfToday) && !Fires(l, now, endOfToday)
  {
  }

  // ---------------------------------------------------------------------------
  // The scan over ledger objects

  /** The lines of each ledger, in order. */
  function Snapshot(store: seq<Ledger>): (r: seq<seq<StockLine>>)
    reads store
    ensures |r| == |store|
    ensures forall k :: 0 <= k < |store| ==> r[k] == store[k].gasStocks
  {
    seq(|store|, k reads store => if 0 <= k < |store| then store[k].gasStocks else [])
  }

  /** The history of each ledger, in order. */
  function HistorySnapshot(store: seq<Ledger>): (r: seq<seq<HistoryEntry>>)
    reads store
    ensures |r| == |store|
    ensures forall k :: 0 <= k < |store| ==> r[k] == store[k].stockHistory
  {
    seq(|store|, k reads store => if 0 <= k < |store| then store[k].stockHistory else [])
  }

  /** The loop over one ledger's lines. Each due line is handed to
      `executeArrival` by its key; keys are unique, so that is the same line. */
  method ScanLedger(ledger: Ledger, now: int, endOfToday: int) returns (executed: nat)
    requires ledger.Valid()
    modifies ledger
    ensures ledger.Valid()
    ensures ledger.gasStocks == ScanLines(old(ledger.gasStocks), now, endOfToday)
    ensures ledger.stockHistory == old(ledger.stockHistory) + ScanEntries(old(ledger.gasStocks), now, endOfToday)
    ensures executed == Fired(old(ledger.gasStocks), now, endOfToday)
    ensures ledger.shopId == old(ledger.shopId)
  {
    ghost var start := ledger.gasStocks;
    ghost var history := ledger.stockHistory;
    var n := |ledger.gasStocks|;
    executed := 0;
    var i := 0;
    assert start[..0] == [] && start[0..] == start;
    while i < n
      invariant 0 <= i <= n && ledger.Valid() && ledger.shopId == old(ledger.shopId)
      invariant ledger.gasStocks == ScanLines(start[..i], now, endOfToday) + start[i..]
      invariant ledger.stockHistory == history + ScanEntries(start[..i], now, endOfToday)
      invariant executed == Fired(start[..i], now, endOfToday)
    {
      executed := ScanStep(ledger, start, history, i, executed, now, endOfToday);
      i := i + 1;
    }
    ScanDone(start, n, now, endOfToday);
  }

  /** One turn of the line loop: the scanned prefix of the lines, the history
      and the count each grow by what the line at `i` contributes. */
  method ScanStep(ledger: Ledger, ghost start: seq<StockLine>, ghost history: seq<HistoryEntry>, i: nat,
                  executed: nat, now: int, endOfToday: int) returns (executed': nat)
    requires ledger.Valid() && i < |start|
    requires ledger.gasStocks == ScanLines(start[..i], now, endOfToday) + start[i..]
    requires ledger.stockHistory == history + ScanEntries(start[..i], now, endOfToday)
    requires executed == Fired(start[..i], now, endOfToday)
    modifies ledger
    ensures ledger.Valid() && ledger.shopId == old(ledger.shopId)
    ensures ledger.gasStocks == ScanLines(start[..i + 1], now, endOfToday) + start[i + 1..]
    ensures ledger.stockHistory == history + ScanEntries(start[..i + 1], now, endOfToday)
    ensures executed' == Fired(start[..i + 1], now, endOfToday)
  {
    ScanLinesStep(start, i, now, endOfToday);
    ScanCountStep(start, i, now, endOfToday);
    var fired := ScanAt(ledger, i, now, endOfToday);
    executed' := if fired then executed + 1 else executed;
  }

  /** The body of the document loop: only documents the query returned are scanned. */
  method ScanDocument(doc: Ledger, now: int, endOfToday: int) returns (executed: nat)
    requires doc.Valid()
    modifies doc
    ensures doc.Valid()
    ensures doc.gasStocks == AfterScan(old(doc.gasStocks), now, endOfToday)
    ensures doc.stockHistory == old(doc.stockHistory) + LoggedIn(old(doc.gasStocks), now, endOfToday)
    ensures executed == FiredIn(old(doc.gasStocks), now, endOfToday)
  {
    executed := 0;
    if Selected(doc.gasStocks, endOfToday) {
      executed := ScanLedger(doc, now, endOfToday);
    } else {
      assert doc.stockHistory + [] == doc.stockHistory;
    }
  }

  /** The body of the line loop: the line at `i` is handed to `executeArrival`
      when it passes the filter. Keys are unique, so that call finds this line. */
  method ScanAt(ledger: Ledger, i: nat, now: int, endOfToday: int) returns (fired: bool)
    requires ledger.Valid() && i < |ledger.gasStocks|
    modifies ledger
    ensures ledger.Valid() && ledger.shopId == old(ledger.shopId)
    ensures fired == Fires(old(ledger.gasStocks[i]), now, endOfToday)
    ensures ledger.gasStocks == old(ledger.gasStocks)[i := ScanLine(old(ledger.gasStocks[i]), now, endOfToday)]
    ensures ledger.stockHistory == old(ledger.stockHistory)
      + (if fired then [ArrivalEntry(old(ledger.gasStocks[i]), now)] else [])
  {
    var stock := ledger.gasStocks[i];
    fired := false;
    if Due(stock, endOfToday) {
      FindLineUnique(ledger.gasStocks, i);
      fired := ledger.ExecuteArrival(stock.brandName, stock.gasType, now);
    }
  }

  /** One step of the line loop on the lines: the scanned prefix grows by the line at `i`. */
  lemma ScanLinesStep(start: seq<StockLine>, i: nat, now: int, endOfToday: int)
    requires i < |start|
    ensures |ScanLines(start[..i], now, endOfToday) + start[i..]| == |start|
    ensures (ScanLines(start[..i], now, endOfToday) + start[i..])[i] == start[i]
    ensures (ScanLines(start[..i], now, endOfToday) + start[i..])[i := ScanLine(start[i], now, endOfToday)]
         == ScanLines(start[..i + 1], now, endOfToday) + start[i + 1..]
  {
    assert start[..i + 1][..i] == start[..i];
    var a := ScanLines(start[..i], now, endOfToday);
    assert (a + start[i..])[i := ScanLine(start[i], now, endOfToday)]
        == a + [ScanLine(start[i], now, endOfToday)] + start[i + 1..];
  }

  /** After the last line the scanned prefix is the whole ledger. */
  lemma ScanDone(start: seq<StockLine>, i: nat, now: int, endOfToday: int)
    requires i == |start|
    ensures ScanLines(start[..i], now, endOfToday) + start[i..] == ScanLines(start, now, endOfToday)
    ensures ScanEntries(start[..i], now, endOfToday) == ScanEntries(start, now, endOfToday)
    ensures Fired(start[..i], now, endOfToday) == Fired(start, now, endOfToday)
  {
    assert start[..i] == start && start[i..] == [];
  }

  lemma ScanCountStep(start: seq<StockLine>, i: nat, now: int, endOfToday: int)
    requires i < |start|
    ensures ScanEntries(start[..i + 1], now, endOfToday)
         == ScanEntries(start[..i], now, endOfToday)
            + (if Fires(start[i], now, endOfToday) then [ArrivalEntry(start[i], now)] else [])
    ensures Fired(start[..i + 1], now, endOfToday)
         == Fired(start[..i], now, endOfToday) + (if Fires(start[i], now, endOfToday) then 1 else 0)
  {
    assert start[..i + 1][..i] == start[..i];
  }

  // ---------------------------------------------------------------------------
  // The scheduler object

  datatype Status = Status(isRunning: bool, intervalId: bool, nextCheckIn: string)

  class Scheduler {
    var isRunning: bool
    /** The handle `setInterval` returned, while the hourly timer is armed. */
    var intervalId: Option<nat>

    /** The scheduler runs exactly when its timer is armed. */
    ghost predicate Valid()
      reads this
    {
      isRunning <==> intervalId.Some?
    }

    constructor ()
      ensures Valid() && !isRunning && intervalId == None
    {
      isRunning := false;
      intervalId := None;
    }

    /** `checkAndExecuteArrivals`: runs the query, then the nested loops; the
        count it returns is the one the source logs. */
    method CheckAndExecuteArrivals(store: seq<Ledger>, now: int, endOfToday: int) returns (totalExecuted: nat)
      requires forall k :: 0 <= k < |store| ==> store[k].Valid()
      requires forall k, m :: 0 <= k < m < |store| ==> store[k] != store[m]
      modifies store
      ensures forall k :: 0 <= k < |store| ==> store[k].Valid()
      ensures forall k :: 0 <= k < |store| ==>
        store[k].gasStocks == AfterScan(old(store[k].gasStocks), now, endOfToday)
      ensures forall k :: 0 <= k < |store| ==>
        store[k].stockHistory == old(store[k].stockHistory) + LoggedIn(old(store[k].gasStocks), now, endOfToday)
      ensures totalExecuted == TotalFired(old(Snapshot(store)), now, endOfToday)
    {
      ghost var before := Snapshot(store);
      ghost var logs := HistorySnapshot(store);
      totalExecuted := 0;
      var i := 0;
      while i < |store|
        invariant 0 <= i <= |store|
        invariant forall k :: 0 <= k < |store| ==> store[k].Valid()
        invariant forall k :: 0 <= k < i ==> store[k].gasStocks == AfterScan(before[k], now, endOfToday)
        invariant forall k :: i <= k < |store| ==> store[k].gasStocks == before[k]
        invariant forall k :: 0 <= k < i ==> store[k].stockHistory == logs[k] + LoggedIn(before[k], now, endOfToday)
        invariant forall k :: i <= k < |store| ==> store[k].stockHistory == logs[k]
        invariant totalExecuted == TotalFired(before[..i], now, endOfToday)
      {
        totalExecuted := DocumentStep(store, before, logs, i, totalExecuted, now, endOfToday);
        i := i + 1;
      }
      assert before[..|store|] == before;
    }

    /** One turn of the document loop: the ledger at `i` is scanned, the others are untouched. */
    static method DocumentStep(store: seq<Ledger>, ghost before: seq<seq<StockLine>>,
                               ghost logs: seq<seq<HistoryEntry>>, i: nat, total: nat,
                               now: int, endOfToday: int) returns (total': nat)
      requires i < |store| == |before| == |logs|
      requires forall k, m :: 0 <= k < m < |store| ==> store[k] != store[m]
      requires forall k :: 0 <= k < |store| ==> store[k].Valid()
      requires forall k :: 0 <= k < i ==> store[k].gasStocks == AfterScan(before[k], now, endOfToday)
      requires forall k :: i <= k < |store| ==> store[k].gasStocks == before[k]
      requires forall k :: 0 <= k < i ==> store[k].stockHistory == logs[k] + LoggedIn(before[k], now, endOfToday)
      requires forall k :: i <= k < |store| ==> store[k].stockHistory == logs[k]
      requires total == TotalFired(before[..i], now, endOfToday)
      modifies store[i]
      ensures forall k :: 0 <= k < |store| ==> store[k].Valid()
      ensures forall k :: 0 <= k < i + 1 ==> store[k].gasStocks == AfterScan(before[k], now, endOfToday)
      ensures forall k :: i + 1 <= k < |store| ==> store[k].gasStocks == before[k]
      ensures forall k :: 0 <= k < i + 1 ==> store[k].stockHistory == logs[k] + LoggedIn(before[k], now, endOfToday)
      ensures forall k :: i + 1 <= k < |store| ==> store[k].stockHistory == logs[k]
      ensures total' == TotalFired(before[..i + 1], now, endOfToday)
    {
      assert before[..i + 1][..i] == before[..i];
      var doc := store[i];
      var executed := ScanDocument(doc, now, endOfToday);
      total' := total + executed;
      forall k | 0 <= k < |store| && k != i
        ensures store[k].Valid() && store[k].gasStocks == old(store[k].gasStocks)
        ensures store[k].stockHistory == old(store[k].stockHistory)
      {
        assert store[k] != doc;
      }
    }

    /** `start`: a no-op while running; otherwise it scans once and arms the
        hourly timer, whose handle is `timer`. */
    method Start(store: seq<Ledger>, now: int, endOfToday: int, timer: nat)
      requires Valid()
      requires forall k :: 0 <= k < |store| ==> store[k].Valid()
      requires forall k, m :: 0 <= k < m < |store| ==> store[k] != store[m]
      modifies this, set d | d in store
      ensures Valid() && isRunning
      ensures old(isRunning) ==> intervalId == old(intervalId)
      ensures old(isRunning) ==> forall k :: 0 <= k < |store| ==> unchanged(store[k])
      ensures !old(isRunning) ==> intervalId == Some(timer)
      ensures !old(isRunning) ==>
        forall k :: 0 <= k < |store| ==> store[k].gasStocks == AfterScan(old(store[k].gasStocks), now, endOfToday)
      ensures !old(isRunning) ==>
        forall k :: 0 <= k < |store| ==>
          store[k].stockHistory == old(store[k].stockHistory) + LoggedIn(old(store[k].gasStocks), now, endOfToday)
      ensures forall k :: 0 <= k < |store| ==> store[k].Valid()
    {
      if isRunning {
        return;
      }
      isRunning := true;
      var _ := CheckAndExecuteArrivals(store, now, endOfToday);
      intervalId := Some(timer);
    }

    /** `stop`: disarms the timer and clears the running flag. */
    method Stop()
      modifies this
      ensures Valid() && !isRunning && intervalId == None
    {
      if intervalId.Some? {
        intervalId := None;
      }
      isRunning := false;
    }

    /** `executeArrivalsNow`: a scan on demand, whether or not the timer runs. */
    method ExecuteArrivalsNow(store: seq<Ledger>, now: int, endOfToday: int) returns (totalExecuted: nat)
      requires forall k :: 0 <= k < |store| ==> store[k].Valid()
      requires forall k, m :: 0 <= k < m < |store| ==> store[k] != store[m]
      modifies store
      ensures forall k :: 0 <= k < |store| ==> store[k].Valid()
      ensures forall k :: 0 <= k < |store| ==>
        store[k].gasStocks == AfterScan(old(store[k].gasStocks), now, endOfToday)
      ensures forall k :: 0 <= k < |store| ==>
        store[k].stockHistory == old(store[k].stockHistory) + LoggedIn(old(store[k].gasStocks), now, endOfToday)
      ensures totalExecuted == TotalFired(old(Snapshot(store)), now, endOfToday)
    {
      totalExecuted := CheckAndExecuteArrivals(store, now, endOfToday);
    }

    /** `getStatus`. */
    function GetStatus(): (s: Status)
      reads this
      requires Valid()
      ensures s.isRunning == isRunning && s.intervalId == isRunning
      ensures s.nextCheckIn == (if isRunning then "Running every hour" else "Stopped")
    {
      Status(isRunning, intervalId.Some?, if intervalId.Some? then "Running every hour" else "Stopped")
    }
  }
}
