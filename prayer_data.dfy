/** The prayer data of app.js: the per-month storage key, the filling of
    missing days when a month is rendered, the toggle of one prayer, and the
    completion statistics of the annual view. The localforage store is a map
    from storage key to month data. */
module PrayerData {

  /** The five tracked prayers of a day. */
  const PRAYERS: seq<string> := ["Fajr", "Zuhr", "Asr", "Maghrib", "Isha"]

  const KEY_PREFIX: string := "prayerTrackerData_"

  /** The label `toLocaleDateString` gives a day, kept abstract: two days
      share a label only when they are the same day. */
  datatype DayKey = DayKey(year: int, month: int, day: int)

  /** One month's data: day label to one flag per prayer. */
  type MonthData = map<DayKey, seq<bool>>

  // ---------------------------------------------------------------------
  // Storage key
  // ---------------------------------------------------------------------

  predicate IsDigit(c: char)
  {
    '0' <= c <= '9'
  }

  function Digit(d: nat): (c: char)
    requires d < 10
    ensures IsDigit(c)
  {
    (48 + d) as char
  }

  /** The decimal numeral of `n`, without leading zeros. */
  function NatDigits(n: nat): (s: string)
    ensures |s| >= 1 && (n >= 10 ==> |s| >= 2)
    ensures forall i :: 0 <= i < |s| ==> IsDigit(s[i])
  {
    if n < 10 then [Digit(n)] else NatDigits(n / 10) + [Digit(n % 10)]
  }

  /** How a JavaScript integer is written into a template string. */
  function IntToString(n: int): string
  {
    if n < 0 then "-" + NatDigits(-n) else NatDigits(n)
  }

  lemma {:induction false} NatDigitsInjective(a: nat, b: nat)
    requires NatDigits(a) == NatDigits(b)
    ensures a == b
    decreases a
  {
    var s := NatDigits(a);
    if a < 10 && b < 10 {
      assert s[0] == Digit(a) && s[0] == Digit(b);
    } else if a >= 10 && b >= 10 {
      assert s[|s| - 1] == Digit(a % 10) && s[|s| - 1] == Digit(b % 10);
      assert s[..|s| - 1] == NatDigits(a / 10) && s[..|s| - 1] == NatDigits(b / 10);
      NatDigitsInjective(a / 10, b / 10);
    }
  }

  lemma IntToStringInjective(a: int, b: int)
    requires IntToString(a) == IntToString(b)
    ensures a == b
  {
    var s := IntToString(a);
    assert a < 0 <==> s[0] == '-' by {
      if a >= 0 {
        assert IsDigit(NatDigits(a)[0]);
      }
    }
    assert b < 0 <==> s[0] == '-' by {
      if b >= 0 {
        assert IsDigit(NatDigits(b)[0]);
      }
    }
    if a < 0 {
      assert s[1..] == NatDigits(-a) && s[1..] == NatDigits(-b);
      NatDigitsInjective(-a, -b);
    } else {
      NatDigitsInjective(a, b);
    }
  }

  lemma IntToStringHasNoSeparator(n: int)
    ensures '_' !in IntToString(n)
  {
    var s := NatDigits(if n < 0 then -n else n);
    assert forall i :: 0 <= i < |s| ==> s[i] != '_';
  }

  /** Two strings joined by "_" split back apart when the left one has no "_". */
  lemma {:induction false} SplitAtSeparator(a: string, b: string, c: string, d: string)
    requires '_' !in a && '_' !in c
    requires a + "_" + b == c + "_" + d
    ensures a == c && b == d
  {
    var s := a + "_" + b;
    assert s[|a|] == '_' && s[|c|] == '_';
    if |a| < |c| {
      assert false;
    } else if |c| < |a| {
      assert false;
    }
    assert a == s[..|a|] && c == s[..|c|];
    assert b == s[|a| + 1..] && d == s[|c| + 1..];
  }

  /** The localforage key of a month (`month` counts from 0). */
  function StorageKey(year: int, month: int): string
  {
    KEY_PREFIX + IntToString(year) + "_" + IntToString(month)
  }

  lemma AfterPrefix(prefix: string, a: string, b: string)
    ensures (prefix + a + "_" + b)[|prefix|..] == a + "_" + b
  {
    assert prefix + a + "_" + b == prefix + (a + "_" + b);
  }

  lemma KeyPartsInjective(prefix: string, y1: int, m1: int, y2: int, m2: int)
    requires prefix + IntToString(y1) + "_" + IntToString(m1) == prefix + IntToString(y2) + "_" + IntToString(m2)
    ensures y1 == y2 && m1 == m2
  {
    var a, b, c, d := IntToString(y1), IntToString(m1), IntToString(y2), IntToString(m2);
    AfterPrefix(prefix, a, b);
    AfterPrefix(prefix, c, d);
    IntToStringHasNoSeparator(y1);
    IntToStringHasNoSeparator(y2);
    SplitAtSeparator(a, b, c, d);
    IntToStringInjective(y1, y2);
    IntToStringInjective(m1, m2);
  }

  /** Distinct (year, month) pairs have distinct storage keys, so no two
      months share stored data. */
  lemma StorageKeyInjective(y1: int, m1: int, y2: int, m2: int)
    requires StorageKey(y1, m1) == StorageKey(y2, m2)
    ensures y1 == y2 && m1 == m2
  {
    KeyPartsInjective(KEY_PREFIX, y1, m1, y2, m2);
  }

  // ---------------------------------------------------------------------
  // Rendering a month
  // ---------------------------------------------------------------------

  predicate IsLeapYear(year: int)
  {
    year % 4 == 0 && (year % 100 != 0 || year % 400 == 0)
  }

  /** The year the `Date` constructor uses for a year argument: 0 to 99 stand
      for 1900 to 1999, every other year for itself (MakeFullYear, section
      21.4.2.1 of ECMA-262). */
  function FullYear(year: int): int
  {
    if 0 <= year <= 99 then 1900 + year else year
  }

  /** `new Date(year, month + 1, 0).getDate()`: the last day of the month, in
      the proleptic Gregorian calendar, of the year the constructor uses. */
  function DaysInMonth(year: int, month: int): (n: nat)
    requires 0 <= month < 12
    ensures 28 <= n <= 31
    ensures n == 28 <==> month == 1 && !IsLeapYear(FullYear(year))
    ensures n == 29 <==> month == 1 && IsLeapYear(FullYear(year))
    ensures n == 30 <==> month in {3, 5, 8, 10}
  {
    if month == 1 then (if IsLeapYear(FullYear(year)) then 29 else 28)
    else if month in {3, 5, 8, 10} then 30
    else 31
  }

  /** A year from 0 to 99 has the month lengths of the same year of the 1900s:
      February of year 0 has 28 days, like February 1900. */
  lemma TwoDigitYears(year: int, month: int)
    requires 0 <= year <= 99 && 0 <= month < 12
    ensures DaysInMonth(year, month) == DaysInMonth(1900 + year, month)
    ensures month == 1 ==> (DaysInMonth(year, month) == 29 <==> year % 4 == 0 && year != 0)
  {
  }

  /** A day nobody has marked yet: one `false` per prayer. */
  function Blank(): seq<bool>
  {
    seq(|PRAYERS|, _ => false)
  }

  /** The data stored under `key`, or the empty month when there is none. */
  function Loaded(store: map<string, MonthData>, key: string): MonthData
  {
    if key in store then store[key] else map[]
  }

  /** The days 1 to n of the month. */
  function DaysUpTo(year: int, month: int, n: int): set<DayKey>
  {
    set d | 1 <= d <= n :: DayKey(year, month, d)
  }

  /** The month data once every day 1 to n has an entry: missing days are blank. */
  function Initialised(data: MonthData, year: int, month: int, n: int): MonthData
  {
    map k | k in data.Keys + DaysUpTo(year, month, n) :: if k in data then data[k] else Blank()
  }

  /** After rendering, every day of the month has an entry, the missing ones
      are blank (five `false`s), the present ones are unchanged, and nothing
      else is added. */
  lemma InitialisedDays(data: MonthData, year: int, month: int, n: int)
    ensures var r := Initialised(data, year, month, n);
      && (forall d :: 1 <= d <= n ==> DayKey(year, month, d) in r)
      && (forall d :: 1 <= d <= n && DayKey(year, month, d) !in data ==>
            r[DayKey(year, month, d)] == Blank() && |Blank()| == 5 && forall i :: 0 <= i < 5 ==> !Blank()[i])
      && (forall k :: k in data ==> k in r && r[k] == data[k])
      && (forall k :: k in r ==> k in data || (k.year == year && k.month == month && 1 <= k.day <= n))
  {
    forall d | 1 <= d <= n ensures DayKey(year, month, d) in DaysUpTo(year, month, n) {
    }
  }

  /** Rendering the same month twice leaves the same data as rendering it once. */
  lemma InitialisedIdempotent(data: MonthData, year: int, month: int, n: int)
    ensures Initialised(Initialised(data, year, month, n), year, month, n) == Initialised(data, year, month, n)
  {
  }

  // ---------------------------------------------------------------------
  // Toggling one prayer
  // ---------------------------------------------------------------------

  /** Whether slot `i` reads as done (`prayerData[day][i]` is truthy; a slot
      past the end is `undefined`). */
  function Slot(prayers: seq<bool>, i: nat): bool
  {
    i < |prayers| && prayers[i]
  }

  /** `prayers[i] = v` on a JavaScript array: a slot past the end extends the
      array, and the holes in between read as not done. */
  function SetSlot(prayers: seq<bool>, i: nat, v: bool): (r: seq<bool>)
    ensures |r| == if i < |prayers| then |prayers| else i + 1
    ensures Slot(r, i) == v
    ensures forall j :: j != i ==> Slot(r, j) == Slot(prayers, j)
  {
    if i < |prayers| then prayers[i := v] else prayers + seq(i - |prayers|, _ => false) + [v]
  }

  /** The click handler: the button's checked state flips, and the slot is set to it. */
  function Toggled(data: MonthData, k: DayKey, i: nat): MonthData
    requires k in data
  {
    data[k := SetSlot(data[k], i, !Slot(data[k], i))]
  }

  /** A click flips exactly one slot of one day; every other day and slot is
      unchanged, and a day of five slots keeps five. */
  lemma ToggleFlipsOneSlot(data: MonthData, k: DayKey, i: nat)
    requires k in data
    ensures var r := Toggled(data, k, i);
      && r.Keys == data.Keys
      && Slot(r[k], i) == !Slot(data[k], i)
      && (forall j :: j != i ==> Slot(r[k], j) == Slot(data[k], j))
      && (forall k' :: k' in data && k' != k ==> r[k'] == data[k'])
      && (i < |data[k]| ==> |r[k]| == |data[k]|)
  {
  }

  // ---------------------------------------------------------------------
  // Annual statistics
  // ---------------------------------------------------------------------

  datatype Tally = Tally(total: nat, completed: nat)

  datatype MonthStats = MonthStats(total: nat, completed: nat, percent: nat)

  /** `prayers.filter(p => p).length`. */
  function CountTrue(prayers: seq<bool>): (c: nat)
    ensures c <= |prayers|
  {
    if prayers == [] then 0 else (if prayers[0] then 1 else 0) + CountTrue(prayers[1..])
  }

  ghost function PickDay(m: MonthData): DayKey
    requires m != map[]
  {
    var k :| k in m; k
  }

  /** The sums `for (const dateKey in prayerData)` accumulates: all slots, and
      the slots that are done. */
  ghost function TallyOf(m: MonthData): (t: Tally)
    ensures t.completed <= t.total
    decreases |m|
  {
    if m == map[] then Tally(0, 0)
    else
      var k := PickDay(m);
      assert |m - {k}| < |m| by {
        assert m.Keys - {k} < m.Keys;
      }
      var rest := TallyOf(m - {k});
      Tally(|m[k]| + rest.total, CountTrue(m[k]) + rest.completed)
  }

  /** The sums do not depend on the order in which the days are visited. */
  lemma {:induction false} TallySplit(m: MonthData, k: DayKey)
    requires k in m
    ensures TallyOf(m) == Tally(|m[k]| + TallyOf(m - {k}).total, CountTrue(m[k]) + TallyOf(m - {k}).completed)
    decreases |m|
  {
    var j := PickDay(m);
    if j != k {
      assert (m - {j}).Keys < m.Keys;
      TallySplit(m - {j}, k);
      assert (m - {k}).Keys < m.Keys;
      TallySplit(m - {k}, j);
      assert m - {j} - {k} == m - {k} - {j};
    }
  }

  /** `Math.round`: the nearest integer, halves rounded up. */
  function RoundHalfUp(x: real): int
  {
    (x + 0.5).Floor
  }

  /** The completion percentage in integer arithmetic. */
  function Percent(completed: nat, total: nat): nat
  {
    if total > 0 then (200 * completed + total) / (2 * total) else 0
  }

  /** The floor of an exact quotient is the integer quotient. */
  lemma FloorOfQuotient(n: nat, q: nat)
    requires q > 0
    ensures (n as real / q as real).Floor == n / q
  {
    var p, r := n / q, n % q;
    assert n == q * p + r && 0 <= r < q;
    assert n as real == q as real * p as real + r as real;
    var x := n as real / q as real;
    assert x == p as real + r as real / q as real;
    assert 0.0 <= r as real / q as real < 1.0;
  }

  lemma HalfShift(completed: nat, total: nat)
    requires total > 0
    ensures 100.0 * completed as real / total as real + 0.5 == (200 * completed + total) as real / (2 * total) as real
  {
    var c, t := completed as real, total as real;
    assert (200 * completed + total) as real == 200.0 * c + t;
    assert (2 * total) as real == 2.0 * t;
    assert (200.0 * c + t) / (2.0 * t) == 200.0 * c / (2.0 * t) + t / (2.0 * t);
    assert t / (2.0 * t) == 0.5;
    assert 200.0 * c / (2.0 * t) == 100.0 * c / t;
  }

  /** The percentage is 0 without any slot, and otherwise
      `Math.round(completed / total * 100)` over exact rationals. */
  lemma PercentIsRounded(completed: nat, total: nat)
    ensures total == 0 ==> Percent(completed, total) == 0
    ensures total > 0 ==> Percent(completed, total) == RoundHalfUp(100.0 * completed as real / total as real)
  {
    if total > 0 {
      HalfShift(completed, total);
      FloorOfQuotient(200 * completed + total, 2 * total);
    }
  }

  /** The percentage always lies in 0..100. */
  lemma PercentBounded(completed: nat, total: nat)
    requires completed <= total
    ensures 0 <= Percent(completed, total) <= 100
  {
    if total > 0 {
      var n := 200 * completed + total;
      var q := 2 * total;
      assert n < q * 101;
      assert q * (n / q) <= n;
    }
  }

  ghost function StatsOf(data: MonthData): MonthStats
  {
    var t := TallyOf(data);
    MonthStats(t.total, t.completed, Percent(t.completed, t.total))
  }

  /** Every month's statistics are consistent: no more done than there are
      slots, 0 % without slots, the rounded share otherwise, and within 0..100. */
  lemma StatsConsistent(data: MonthData)
    ensures var s := StatsOf(data);
      && s.completed <= s.total
      && (s.total == 0 ==> s.percent == 0)
      && (s.total > 0 ==> s.percent == RoundHalfUp(100.0 * s.completed as real / s.total as real))
      && 0 <= s.percent <= 100
  {
    var t := TallyOf(data);
    PercentIsRounded(t.completed, t.total);
    PercentBounded(t.completed, t.total);
  }

  function Restrict(m: MonthData, keys: set<DayKey>): MonthData
  {
    map k | k in keys && k in m :: m[k]
  }

  /** The loop over the days of one month in `renderAnnualView`. */
  method TallyMonth(data: MonthData) returns (totalPrayers: nat, completedPrayers: nat)
    ensures Tally(totalPrayers, completedPrayers) == TallyOf(data)
  {
    totalPrayers, completedPrayers := 0, 0;
    var remaining := data.Keys;
    assert Restrict(data, remaining) == data;
    while remaining != {}
      invariant remaining <= data.Keys
      invariant TallyOf(data) == Tally(totalPrayers + TallyOf(Restrict(data, remaining)).total,
                                       completedPrayers + TallyOf(Restrict(data, remaining)).completed)
      decreases |remaining|
    {
      var dateKey :| dateKey in remaining;
      TallySplit(Restrict(data, remaining), dateKey);
      assert Restrict(data, remaining) - {dateKey} == Restrict(data, remaining - {dateKey});
      totalPrayers := totalPrayers + |data[dateKey]|;
      completedPrayers := completedPrayers + CountTrue(data[dateKey]);
      remaining := remaining - {dateKey};
    }
    assert Restrict(data, remaining) == map[];
  }

  // ---------------------------------------------------------------------
  // The page
  // ---------------------------------------------------------------------

  /** The monthly view's data: the localforage store, the month on screen and
      its in-memory `prayerData`. */
  class PrayerTracker {
    var store: map<string, MonthData>
    var year: int
    var month: int
    var prayerData: MonthData
    var rendered: bool

    /** Once a month is on screen, every one of its days has an entry. */
    ghost predicate Valid()
      reads this
    {
      rendered ==>
        0 <= month < 12 &&
        forall d :: 1 <= d <= DaysInMonth(year, month) ==> DayKey(year, month, d) in prayerData
    }

    constructor (store: map<string, MonthData>)
      ensures Valid() && this.store == store && !rendered
    {
      this.store := store;
      year, month := 0, 0;
      prayerData := map[];
      rendered := false;
    }

    /** `renderMonth(year, month)`: load the month (or `{}`), give every
      missing day a blank entry, and save the month back under its key. */
    method RenderMonth(y: int, m: int)
      requires 0 <= m < 12
      modifies this
      ensures Valid() && rendered && year == y && month == m
      ensures prayerData == Initialised(Loaded(old(store), StorageKey(y, m)), y, m, DaysInMonth(y, m))
      ensures store == old(store)[StorageKey(y, m) := prayerData]
    {
      var key := StorageKey(y, m);
      var data := if key in store then store[key] else map[];
      ghost var loaded := data;
      var daysInMonth := DaysInMonth(y, m);
      for day := 1 to daysInMonth + 1
        invariant data == Initialised(loaded, y, m, day - 1)
      {
        var dateKey := DayKey(y, m, day);
        assert DaysUpTo(y, m, day) == DaysUpTo(y, m, day - 1) + {dateKey};
        if dateKey !in data {
          data := data[dateKey := Blank()];
        }
      }
      InitialisedDays(loaded, y, m, daysInMonth);
      year, month, prayerData, rendered := y, m, data, true;
      store := store[key := data];
    }

    /** The click handler of the button for prayer `index` of day `day`:
      flip that slot and save the month under its key. */
    method Click(day: int, index: nat)
      requires Valid() && rendered
      requires 1 <= day <= DaysInMonth(year, month) && index < |PRAYERS|
      modifies this
      ensures Valid() && rendered && year == old(year) && month == old(month)
      ensures prayerData == Toggled(old(prayerData), DayKey(year, month, day), index)
      ensures store == old(store)[StorageKey(year, month) := prayerData]
    {
      var dateKey := DayKey(year, month, day);
      var isChecked := !Slot(prayerData[dateKey], index);
      prayerData := prayerData[dateKey := SetSlot(prayerData[dateKey], index, isChecked)];
      store := store[StorageKey(year, month) := prayerData];
    }

    /** `renderAnnualView(year)`: the statistics of the twelve months of the year. */
    method AnnualView(y: int) returns (stats: seq<MonthStats>)
      ensures |stats| == 12
      ensures forall m :: 0 <= m < 12 ==> stats[m] == StatsOf(Loaded(store, StorageKey(y, m)))
    {
      stats := [];
      for m := 0 to 12
        invariant |stats| == m
        invariant forall j :: 0 <= j < m ==> stats[j] == StatsOf(Loaded(store, StorageKey(y, j)))
      {
        var key := StorageKey(y, m);
        var data := if key in store then store[key] else map[];
        var totalPrayers, completedPrayers := TallyMonth(data);
        var completionPercentage := Percent(completedPrayers, totalPrayers);
        stats := stats + [MonthStats(totalPrayers, completedPrayers, completionPercentage)];
      }
    }
  }
}
