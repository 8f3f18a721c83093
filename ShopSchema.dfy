/** The shop document (`schema/Shop.js`): its status enumeration, its weekly
    operating hours and the `isOpen` virtual, with the current day and time
    passed in rather than read from the clock. */
module ShopSchema {
  import opened Wrappers
  import opened Text

  datatype ShopStatus = Active | Inactive | Maintenance | Closed

  const DefaultShopStatus := Active

  function ShopStatusName(s: ShopStatus): string {
    match s
    case Active => "active"
    case Inactive => "inactive"
    case Maintenance => "maintenance"
    case Closed => "closed"
  }

  /** Reading a status string; anything outside the four values is refused. */
  function ParseShopStatus(name: string): (r: Option<ShopStatus>)
    ensures r.Some? ==> ShopStatusName(r.value) == name
  {
    if name == "active" then Some(Active)
    else if name == "inactive" then Some(Inactive)
    else if name == "maintenance" then Some(Maintenance)
    else if name == "closed" then Some(Closed)
    else None
  }

  lemma ParseShopStatusName(s: ShopStatus)
    ensures ParseShopStatus(ShopStatusName(s)) == Some(s)
  {
    match s
    case Active =>
    case Inactive => assert "inactive"[0] != "active"[0];
    case Maintenance => assert "maintenance"[0] !in {'a', 'i'};
    case Closed => assert "closed"[0] !in {'a', 'i', 'm'};
  }

  /** One day of `operatingHours`: "HH:MM" strings, either of which may be missing. */
  datatype DayHours = DayHours(open: Option<string>, close: Option<string>, isOpen: bool)

  datatype OperatingHours = OperatingHours(
    monday: DayHours, tuesday: DayHours, wednesday: DayHours, thursday: DayHours,
    friday: DayHours, saturday: DayHours, sunday: DayHours)

  /** `operatingHours[days[day]]` with `days` starting on Sunday, as `getDay` counts. */
  function HoursOn(w: OperatingHours, day: nat): (h: DayHours)
    requires day < 7
    ensures day == 0 ==> h == w.sunday
    ensures day == 6 ==> h == w.saturday
    ensures 1 <= day <= 5 ==> h == [w.monday, w.tuesday, w.wednesday, w.thursday, w.friday][day - 1]
  {
    match day
    case 0 => w.sunday
    case 1 => w.monday
    case 2 => w.tuesday
    case 3 => w.wednesday
    case 4 => w.thursday
    case 5 => w.friday
    case 6 => w.saturday
  }

  /** `parseInt(t?.replace(':', '') || fallback)`; `None` is NaN. */
  function ClockTime(t: Option<string>, fallback: string): (r: Option<int>)
    ensures t.None? ==> r == ParseInt(fallback)
    ensures t.Some? && RemoveFirst(t.value, ':') != "" ==> r == ParseInt(RemoveFirst(t.value, ':'))
    ensures t.Some? && RemoveFirst(t.value, ':') == "" ==> r == ParseInt(fallback)
  {
    var s := if t.Some? then RemoveFirst(t.value, ':') else "";
    ParseInt(if s != "" then s else fallback)
  }

  function OpenTime(h: DayHours): Option<int> {
    ClockTime(h.open, "0")
  }

  function CloseTime(h: DayHours): Option<int> {
    ClockTime(h.close, "2359")
  }

  /** `isOpen` at `hour:minute` on weekday `day`. A comparison with NaN is false,
      so an unreadable time closes the shop. */
  function IsOpen(status: ShopStatus, hours: OperatingHours, day: nat, hour: nat, minute: nat): (r: bool)
    requires day < 7
    ensures status != Active ==> !r
    ensures !HoursOn(hours, day).isOpen ==> !r
    ensures r <==>
      && status == Active && HoursOn(hours, day).isOpen
      && OpenTime(HoursOn(hours, day)).Some? && CloseTime(HoursOn(hours, day)).Some?
      && OpenTime(HoursOn(hours, day)).value <= 100 * hour + minute <= CloseTime(HoursOn(hours, day)).value
  {
    if status != Active then false
    else
      var today := HoursOn(hours, day);
      if !today.isOpen then false
      else
        var openTime, closeTime := OpenTime(today), CloseTime(today);
        var now := 100 * hour + minute;
        openTime.Some? && closeTime.Some? && now >= openTime.value && now <= closeTime.value
  }

  /** A clock string "HH:MM" and the number it reads as. */
  predicate IsClock(t: string) {
    |t| == 5 && t[2] == ':' && AllDigits(t[..2]) && AllDigits(t[3..])
  }

  function ClockNumber(t: string): nat
    requires IsClock(t)
  {
    100 * Value(t[..2]) + Value(t[3..])
  }

  /** With both times written "HH:MM" the shop is open from the opening minute to
      the closing minute, both included. */
  lemma OpenBetween(status: ShopStatus, hours: OperatingHours, day: nat, hour: nat, minute: nat)
    requires day < 7 && status == Active && HoursOn(hours, day).isOpen
    requires HoursOn(hours, day).open.Some? && IsClock(HoursOn(hours, day).open.value)
    requires HoursOn(hours, day).close.Some? && IsClock(HoursOn(hours, day).close.value)
    ensures IsOpen(status, hours, day, hour, minute) <==>
      ClockNumber(HoursOn(hours, day).open.value) <= 100 * hour + minute <= ClockNumber(HoursOn(hours, day).close.value)
  {
    var today := HoursOn(hours, day);
    ClockTimeOf(today.open.value, "0");
    ClockTimeOf(today.close.value, "2359");
  }

  lemma ClockTimeOf(t: string, fallback: string)
    requires IsClock(t)
    ensures ClockTime(Some(t), fallback) == Some(ClockNumber(t) as int)
  {
    ClockKeepsDigits(t);
    ClockReading(t);
  }

  lemma ClockKeepsDigits(t: string)
    requires IsClock(t)
    ensures RemoveFirst(t, ':') != ""
  {
    assert IsDigit(t[0]) && IsDigit(t[1]) by { assert t[..2][0] == t[0] && t[..2][1] == t[1]; }
    ClockDigits(t);
    assert |t[..2] + t[3..]| == 4;
  }

  /** With neither time set, an open day covers every minute of the day. */
  lemma MissingTimesMeanAllDay(hours: OperatingHours, day: nat, hour: nat, minute: nat)
    requires day < 7 && HoursOn(hours, day).isOpen
    requires HoursOn(hours, day).open.None? && HoursOn(hours, day).close.None?
    requires hour < 24 && minute < 60
    ensures IsOpen(Active, hours, day, hour, minute)
  {
    ParseNumeral("0", 0);
    ParseNumeral("2359", 2359) by { FourDigits('2', '3', '5', '9'); }
  }

  lemma FourDigits(a: char, b: char, c: char, d: char)
    requires IsDigit(a) && IsDigit(b) && IsDigit(c) && IsDigit(d)
    ensures AllDigits([a, b, c, d])
    ensures Value([a, b, c, d]) == 1000 * DigitValue(a) + 100 * DigitValue(b) + 10 * DigitValue(c) + DigitValue(d)
  {
    assert [a][..0] == [];
    assert Value([a]) == DigitValue(a);
    assert [a, b][..1] == [a];
    assert Value([a, b]) == 10 * DigitValue(a) + DigitValue(b);
    assert [a, b, c][..2] == [a, b];
    assert Value([a, b, c]) == 100 * DigitValue(a) + 10 * DigitValue(b) + DigitValue(c);
    assert [a, b, c, d][..3] == [a, b, c];
  }
}
